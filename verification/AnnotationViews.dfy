/** What a patch takes from its operations and shows in the projection, path by path and layer by layer. */
module AnnotationViews {
  import opened Results
  import opened JsonTree
  import opened AnnotationPatch
  import opened AnnotationLaws
  import Decimal

  // ---- what is carried and what is rebuilt --------------------------------

  /** An operation that is not skipped. */
  predicate Effective(o: Operation) {
    (o.op.None? || o.op.value == "add" || o.op.value == "replace") && o.path.Some? && o.value.Some?
  }

  /** The operation writes to or below the key: by a path of its own, or below the projection. */
  predicate WritesTo(o: Operation, key: string) {
    && Effective(o)
    && ((key in {"title", "usable"} && o.path.value == "/" + key)
        || ("/projection/" <= o.path.value && Parts(o.path.value[12..]) != [] && Parts(o.path.value[12..])[0] == key))
  }

  predicate Unwritten(ops: seq<Operation>, key: string) { key != NOTES && forall o <- ops :: !WritesTo(o, key) }

  lemma {:induction false} WriteIs(o: Operation)
    requires Classify(o).Write?
    ensures Classify(o).parts != [] && WritesTo(o, Classify(o).parts[0])
  {
    assert |"/projection/"| == 12;
  }

  lemma {:induction false} UnwrittenLight(schema: Schema, duration: real, d: Draft, ops: seq<Operation>, key: string)
    requires Fold(schema, duration, d, ops).Ok? && Unwritten(ops, key)
    ensures At(Fold(schema, duration, d, ops).value.light, key) == At(d.light, key)
    decreases |ops|
  {
    if ops != [] {
      assert ops[0] in ops && forall o <- ops[1..] :: o in ops;
      if Classify(ops[0]).Write? { WriteIs(ops[0]); }
      EffectByKey(schema, duration, d, ops[0], key);
      UnwrittenLight(schema, duration, ApplyEffect(schema, duration, d, Classify(ops[0])).value, ops[1..], key);
    }
  }

  /** What the projection carries beside the rebuilt layers, the labels and the notes stays until it is written. */
  lemma {:induction false} UnwrittenIsCarried(schema: Schema, stored: Stored, projection: Object, asset: Asset, ops: seq<Operation>, key: string)
    requires Apply(schema, stored, projection, asset, ops).Ok? && Unwritten(ops, key) && key !in BUILT && key != "labels"
    ensures At(Apply(schema, stored, projection, asset, ops).value.1, key) == At(projection, key)
  {
    var a0 := Load(stored, asset).value;
    var d := Fold(schema, a0.meta.duration, Begin(stored, projection), ops).value;
    UnwrittenLight(schema, a0.meta.duration, Begin(stored, projection), ops, key);
    CarriedAt(Merge(a0, d).value, asset, d, key);
  }

  lemma {:induction false} LabelsKeepOthers(d: Draft, key: string)
    requires key != "labels"
    ensures key in FinishLabels(d) <==> key in d.light
  {
  }

  lemma {:induction false} ProjectedDefaults(a: Annotation, asset: Asset, light: Object, key: string)
    requires key in {"title", "usable"} && key !in light
    ensures At(Project(a, asset, light), key) ==
            Some(if key == "title" then JStr(asset.title) else JBool(a.meta.status != "failed" && a.windows != []))
  {
    ProjectAt(a, asset, light, key);
  }

  /** Where neither the projection nor an operation gives them, the title is the asset's, and the material is usable
      exactly when it did not fail and has usage windows. */
  lemma {:induction false} RebuiltDefaults(schema: Schema, stored: Stored, projection: Object, asset: Asset, ops: seq<Operation>, key: string)
    requires Apply(schema, stored, projection, asset, ops).Ok? && key in {"title", "usable"} && key !in projection
    requires Unwritten(ops, key)
    ensures var (a, p) := Apply(schema, stored, projection, asset, ops).value;
            At(p, key) == Some(if key == "title" then JStr(asset.title) else JBool(a.meta.status != "failed" && a.windows != []))
  {
    var a0 := Load(stored, asset).value;
    var d := Fold(schema, a0.meta.duration, Begin(stored, projection), ops).value;
    UnwrittenLight(schema, a0.meta.duration, Begin(stored, projection), ops, key);
    LabelsKeepOthers(d, key);
    ProjectedDefaults(Merge(a0, d).value, asset, FinishLabels(d), key);
  }

  // ---- paths --------------------------------------------------------------

  /** The paths whose value replaces a structural layer. */
  function LayerPaths(kind: Kind): set<string> {
    match kind
    case ClipKind => {"/canonical/segments", "/projection/segments", "/canonical/clips"}
    case EventKind => {"/canonical/quality_events", "/projection/quality_events"}
    case BgmKind => {"/canonical/bgm_segments", "/projection/bgm_segments"}
  }

  predicate Plain(name: string) { name != "" && forall c <- name :: c != '/' }

  lemma {:induction false} TwoPlain(a: string, b: string, path: string)
    requires Plain(a) && Plain(b) && path == "/" + a + "/" + b
    ensures Parts(path) == [a, b]
  {
    forall c | c in a + b ensures c != '/' { assert c in a || c in b; }
    TwoComponents(a, b);
  }

  lemma CanonicalSegments()
    ensures Parts("/canonical/segments") == ["canonical", "segments"]
  {
    TwoPlain("canonical", "segments", "/canonical/segments");
  }

  lemma ProjectionSegments()
    ensures Parts("/projection/segments") == ["projection", "segments"]
  {
    TwoPlain("projection", "segments", "/projection/segments");
  }

  lemma CanonicalClips()
    ensures Parts("/canonical/clips") == ["canonical", "clips"]
  {
    TwoPlain("canonical", "clips", "/canonical/clips");
  }

  lemma CanonicalQualityEvents()
    ensures Parts("/canonical/quality_events") == ["canonical", "quality_events"]
  {
    TwoPlain("canonical", "quality_events", "/canonical/quality_events");
  }

  lemma ProjectionQualityEvents()
    ensures Parts("/projection/quality_events") == ["projection", "quality_events"]
  {
    TwoPlain("projection", "quality_events", "/projection/quality_events");
  }

  lemma CanonicalBgmSegments()
    ensures Parts("/canonical/bgm_segments") == ["canonical", "bgm_segments"]
  {
    TwoPlain("canonical", "bgm_segments", "/canonical/bgm_segments");
  }

  lemma ProjectionBgmSegments()
    ensures Parts("/projection/bgm_segments") == ["projection", "bgm_segments"]
  {
    TwoPlain("projection", "bgm_segments", "/projection/bgm_segments");
  }

  lemma {:induction false} NotDeprecated(parts: seq<string>)
    requires forall part <- parts :: |part| < 17
    ensures "bgm_usage_windows" !in parts
  {
    assert |"bgm_usage_windows"| == 17;
  }

  lemma {:induction false} ClipParts(path: string)
    requires path in LayerPaths(ClipKind)
    ensures "bgm_usage_windows" !in Parts(path)
  {
    if path == "/canonical/segments" {
      CanonicalSegments();
    } else if path == "/projection/segments" {
      ProjectionSegments();
    } else {
      CanonicalClips();
    }
    NotDeprecated(Parts(path));
  }

  lemma {:induction false} EventParts(path: string)
    requires path in LayerPaths(EventKind)
    ensures "bgm_usage_windows" !in Parts(path)
  {
    CanonicalQualityEvents();
    ProjectionQualityEvents();
    NotDeprecated(Parts(path));
  }

  lemma {:induction false} BgmParts(path: string)
    requires path in LayerPaths(BgmKind)
    ensures "bgm_usage_windows" !in Parts(path)
  {
    CanonicalBgmSegments();
    ProjectionBgmSegments();
    NotDeprecated(Parts(path));
  }

  lemma {:induction false} EditsOnly(o: Operation, kind: Kind)
    requires Edits(o, kind)
    ensures Effective(o) && o.path.value in LayerPaths(kind) && Classify(o).value == o.value.value
  {
  }

  lemma {:induction false} EditsClips(o: Operation)
    requires Effective(o) && o.path.value in LayerPaths(ClipKind)
    ensures Edits(o, ClipKind)
  {
    ClipParts(o.path.value);
  }

  lemma {:induction false} EditsEvents(o: Operation)
    requires Effective(o) && o.path.value in LayerPaths(EventKind)
    ensures Edits(o, EventKind)
  {
    EventParts(o.path.value);
  }

  lemma {:induction false} EditsBgm(o: Operation)
    requires Effective(o) && o.path.value in LayerPaths(BgmKind)
    ensures Edits(o, BgmKind)
  {
    BgmParts(o.path.value);
  }

  /** An operation edits a layer exactly when it is effective and names one of its paths. */
  lemma {:induction false} EditsExactly(o: Operation, kind: Kind)
    ensures Edits(o, kind) <==> Effective(o) && o.path.value in LayerPaths(kind)
    ensures Edits(o, kind) ==> Classify(o).value == o.value.value
  {
    if Effective(o) && o.path.value in LayerPaths(kind) {
      match kind
      case ClipKind => EditsClips(o);
      case EventKind => EditsEvents(o);
      case BgmKind => EditsBgm(o);
    }
    if Edits(o, kind) { EditsOnly(o, kind); }
  }

  /** The operation replaces the layer. */
  predicate Replaces(o: Operation, kind: Kind) { Effective(o) && o.path.value in LayerPaths(kind) }

  /** A key the raw object has is kept, an absent one defaulted. */
  predicate KeptOr(raw: Object, item: Object, key: string, default_: Json) {
    At(item, key) == Some(if key in raw then raw[key] else default_)
  }

  ghost predicate OthersKept(raw: Object, item: Object, keys: set<string>) {
    forall key :: key !in keys ==> At(item, key) == At(raw, key)
  }

  /** What a usage value may be to count as none: null, false, zero, or empty. */
  predicate Blank(j: Json) { j in [JNull, JBool(false), JNum(0.0), JStr(""), JArr([]), JObj(map[])] }

  ghost predicate CompletedClip(schema: Schema, raw: Object, k: nat, item: Object) {
    && OthersKept(raw, item, {"segment_id", "usage", "duration"})
    && KeptOr(raw, item, "segment_id", JStr("seg_edit_" + Decimal.Print(k)))
    && "usage" in item && item["usage"].JObj? && "role" in item["usage"].fields
    && (if "usage" !in raw || Blank(raw["usage"]) then item["usage"].fields == map["role" := JStr("cover")]
        else
          var usage := if raw["usage"].JObj? then Some(raw["usage"].fields) else schema.usage(raw["usage"]);
          && usage.Some? && OthersKept(usage.value, item["usage"].fields, {"role"})
          && KeptOr(usage.value, item["usage"].fields, "role", JStr("cover")))
    && KeptOr(raw, item, "duration", schema.span(item - {"duration"}))
  }

  ghost predicate CompletedBgm(schema: Schema, raw: Object, k: nat, item: Object) {
    && OthersKept(raw, item, {"segment_id", "duration"})
    && KeptOr(raw, item, "segment_id", JStr("bgm_edit_" + Decimal.Print(k)))
    && KeptOr(raw, item, "duration", schema.span(item - {"duration"}))
  }

  ghost predicate CompletedEvent(raw: Object, k: nat, item: Object) {
    && OthersKept(raw, item, {"event_id", "source"})
    && KeptOr(raw, item, "event_id", JStr("qe_edit_" + Decimal.Print(k))) && KeptOr(raw, item, "source", JStr("manual"))
  }

  ghost predicate TakenOne(schema: Schema, kind: Kind, duration: real, raw: Object, k: nat, x: Timed) {
    && (duration > 0.0 ==> 0.0 <= x.start && x.end <= duration + 0.000001)
    && match kind
       case ClipKind => exists item :: CompletedClip(schema, raw, k, item) && schema.clip(item) == Some(x)
       case EventKind => exists item :: CompletedEvent(raw, k, item) && schema.event(item) == Some(x)
       case BgmKind => exists item :: CompletedBgm(schema, raw, k, item) && schema.segment(item) == Some(x)
  }

  /** Each element is a raw object of the value, completed, as its contract model took it, inside a known duration. */
  ghost predicate Taken(schema: Schema, kind: Kind, duration: real, raws: seq<Json>, xs: seq<Timed>) {
    |xs| == |raws| && forall k :: 0 <= k < |xs| ==> raws[k].JObj? && TakenOne(schema, kind, duration, raws[k].fields, k, xs[k])
  }

  lemma {:induction false} PreparedClip(schema: Schema, raw: Object, k: nat)
    requires Prepare(schema, ClipKind, raw, k).Ok?
    ensures CompletedClip(schema, raw, k, Prepare(schema, ClipKind, raw, k).value)
  {
    var item := Prepare(schema, ClipKind, raw, k).value;
    var named := Default(raw, "segment_id", JStr("seg_edit_" + Decimal.Print(k)));
    var usage := item["usage"].fields;
    var used := named["usage" := JObj(usage)];
    assert "usage" in raw ==> (Blank(raw["usage"]) <==> !Truthy(raw["usage"]));
    assert item == Default(used, "duration", schema.span(used));
    if "duration" !in raw { assert item - {"duration"} == used; }
  }

  lemma {:induction false} PreparedBgm(schema: Schema, raw: Object, k: nat)
    ensures Prepare(schema, BgmKind, raw, k).Ok? && CompletedBgm(schema, raw, k, Prepare(schema, BgmKind, raw, k).value)
  {
    var item := Prepare(schema, BgmKind, raw, k).value;
    var named := Default(raw, "segment_id", JStr("bgm_edit_" + Decimal.Print(k)));
    if "duration" !in raw { assert item - {"duration"} == named; }
  }

  lemma {:induction false} OneTaken(schema: Schema, kind: Kind, duration: real, raw: Json, k: nat)
    requires ValidateOne(schema, kind, duration, raw, k).Ok?
    ensures raw.JObj? && TakenOne(schema, kind, duration, raw.fields, k, ValidateOne(schema, kind, duration, raw, k).value)
  {
    var item := Prepare(schema, kind, raw.fields, k).value;
    match kind
    case ClipKind => PreparedClip(schema, raw.fields, k);
    case EventKind => assert CompletedEvent(raw.fields, k, item);
    case BgmKind => PreparedBgm(schema, raw.fields, k);
  }

  lemma {:induction false} AllTaken(schema: Schema, kind: Kind, duration: real, value: Json)
    requires Validate(schema, kind, duration, value).Ok?
    ensures value.JArr? && Taken(schema, kind, duration, value.items, Validate(schema, kind, duration, value).value)
  {
    ValidatedElements(schema, kind, duration, value.items, |value.items|);
    forall k | 0 <= k < |value.items|
      ensures value.items[k].JObj?
      ensures TakenOne(schema, kind, duration, value.items[k].fields, k, Validate(schema, kind, duration, value).value[k])
    {
      OneTaken(schema, kind, duration, value.items[k], k);
    }
  }

  lemma {:induction false} MergeKeeps(a: Annotation, d: Draft)
    requires Merge(a, d).Ok?
    ensures var m := Merge(a, d).value; m == a.(clips := m.clips, events := m.events, bgm := m.bgm)
  {
  }

  /** An accepted patch changes nothing of the stored annotation but its clips, events and BGM; a stub becomes an empty
      annotation of the asset first, and one that does not parse is never patched. */
  lemma {:induction false} CanonicalIsKept(schema: Schema, stored: Stored, projection: Object, asset: Asset, ops: seq<Operation>)
    requires Apply(schema, stored, projection, asset, ops).Ok?
    ensures var a := Apply(schema, stored, projection, asset, ops).value.0;
            && (stored.V4? ==> a == stored.annotation.(clips := a.clips, events := a.events, bgm := a.bgm))
            && (stored.Stub? ==>
                 && a.meta == Meta(asset.id, asset.caseId, asset.kind, 0.0, "completed")
                 && a.report == JObj(map[]) && a.windows == [] && a.evidence == [] && a.images == JArr([]))
            && !stored.Malformed?
  {
    var a0 := Load(stored, asset).value;
    MergeKeeps(a0, Fold(schema, a0.meta.duration, Begin(stored, projection), ops).value);
  }

  /** The layer there was. */
  function StoredLayer(stored: Stored, kind: Kind): seq<Timed> {
    if !stored.V4? then []
    else if kind.ClipKind? then stored.annotation.clips
    else if kind.EventKind? then stored.annotation.events else stored.annotation.bgm
  }

  /** The layer there is. */
  function NewLayer(a: Annotation, kind: Kind): seq<Timed> {
    if kind.ClipKind? then a.clips else if kind.EventKind? then a.events else a.bgm
  }

  /** Each structural layer of the new canonical is the last value an operation gives for it, element by element, or
      the layer there was when none does. */
  lemma {:induction false} LayersAreTaken(schema: Schema, stored: Stored, projection: Object, asset: Asset, ops: seq<Operation>, kind: Kind)
    requires Apply(schema, stored, projection, asset, ops).Ok?
    ensures var a := Apply(schema, stored, projection, asset, ops).value.0;
            && ((forall o <- ops :: !Replaces(o, kind)) ==> NewLayer(a, kind) == StoredLayer(stored, kind))
            && (forall k :: 0 <= k < |ops| && Replaces(ops[k], kind) && (forall j :: k < j < |ops| ==> !Replaces(ops[j], kind)) ==>
                  ops[k].value.value.JArr? && Taken(schema, kind, a.meta.duration, ops[k].value.value.items, NewLayer(a, kind)))
  {
    var a := Apply(schema, stored, projection, asset, ops).value.0;
    LastEditWins(schema, stored, projection, asset, ops, kind);
    assert NewLayer(a, kind) == LayerOf(a, kind);
    forall j | 0 <= j < |ops| ensures Edits(ops[j], kind) <==> Replaces(ops[j], kind) { EditsExactly(ops[j], kind); }
    if forall o <- ops :: !Replaces(o, kind) {
      assert StoredLayer(stored, kind) == LayerOf(Load(stored, asset).value, kind);
    }
    forall k | 0 <= k < |ops| && Replaces(ops[k], kind) && (forall j :: k < j < |ops| ==> !Replaces(ops[j], kind))
      ensures ops[k].value.value.JArr? && Taken(schema, kind, a.meta.duration, ops[k].value.value.items, LayerOf(a, kind))
    {
      EditsExactly(ops[k], kind);
      AllTaken(schema, kind, a.meta.duration, ops[k].value.value);
    }
  }

  // ---- light writes -------------------------------------------------------

  lemma {:induction false} OnePlain(a: string)
    requires Plain(a)
    ensures Parts("/" + a) == [a]
  {
    assert ("/" + a)[1..] == a;
    OneComponent(a);
  }

  lemma {:induction false} SamePrefix(p: string, a: string, b: string)
    ensures p + a == p + b <==> a == b
  {
    assert (p + a)[|p|..] == a && (p + b)[|p|..] == b;
  }

  /** What names the projection keeps under their own key: no layer, no path of its own, and nothing deprecated. */
  predicate Free(name: string) {
    Plain(name) && name !in {"segments", "quality_events", "bgm_segments", "bgm_usage_windows"}
  }

  /** A free name in the projection is no path of a layer. */
  lemma {:induction false} NoLayerPath(name: string)
    requires Free(name)
    ensures var path := "/projection/" + name;
            && path != "/projection/segments" && path != "/projection/quality_events" && path != "/projection/bgm_segments"
  {
    SamePrefix("/projection/", name, "segments");
    SamePrefix("/projection/", name, "quality_events");
    SamePrefix("/projection/", name, "bgm_segments");
  }

  lemma {:induction false} ProjectionParts(name: string)
    requires Free(name)
    ensures Parts("/projection/" + name) == ["projection", name] && "bgm_usage_windows" !in Parts("/projection/" + name)
  {
    assert |"projection"| == 10 && |"bgm_usage_windows"| == 17;
    TwoPlain("projection", name, "/projection/" + name);
  }

  lemma {:induction false} ProjectionWrite(o: Operation, name: string)
    requires Effective(o) && Free(name) && o.path.value == "/projection/" + name
    ensures Classify(o) == Write([name], o.value.value)
  {
    var path := o.path.value;
    ProjectionParts(name);
    NoLayerPath(name);
    OneComponent(name);
    assert path[1] == 'p' && path[|"/projection/"|..] == name;
  }

  lemma {:induction false} TitlePath(o: Operation)
    requires Effective(o) && o.path.value == "/title"
    ensures Classify(o) == Write(["title"], o.value.value)
  {
    OnePlain("title");
  }

  lemma {:induction false} UsablePath(o: Operation)
    requires Effective(o) && o.path.value == "/usable"
    ensures Classify(o) == Write(["usable"], o.value.value)
  {
    OnePlain("usable");
  }

  lemma {:induction false} OwnPathWrite(o: Operation, name: string)
    requires Effective(o) && name in {"title", "usable"} && o.path.value == "/" + name
    ensures Classify(o) == Write([name], o.value.value)
  {
    if name == "title" { TitlePath(o); } else { UsablePath(o); }
  }

  lemma {:induction false} LabelsPath(o: Operation)
    requires Effective(o) && o.path.value == "/labels"
    ensures Classify(o) == Labels(o.value.value)
  {
    OnePlain("labels");
  }

  lemma {:induction false} FoldNext(schema: Schema, duration: real, d: Draft, ops: seq<Operation>, o: Operation)
    ensures var r := Fold(schema, duration, d, ops);
            Fold(schema, duration, d, ops + [o]) == if r.Err? then r else ApplyEffect(schema, duration, r.value, Classify(o))
    decreases |ops|
  {
    if ops == [] {
      assert [] + [o] == [o] && [o][1..] == [];
    } else {
      assert (ops + [o])[0] == ops[0] && (ops + [o])[1..] == ops[1..] + [o];
      var r := ApplyEffect(schema, duration, d, Classify(ops[0]));
      if r.Ok? { FoldNext(schema, duration, r.value, ops[1..], o); }
    }
  }

  lemma {:induction false} WriteTop(light: Object, name: string, v: Json)
    ensures FieldsOf(Some(SetIn(Some(JObj(light)), [name], v))) == light[name := v]
  {
    assert [name][1..] == [];
  }

  lemma {:induction false} AppliedLast(schema: Schema, stored: Stored, projection: Object, asset: Asset, ops: seq<Operation>, o: Operation) returns (d0: Draft, d: Draft)
    requires Apply(schema, stored, projection, asset, ops + [o]).Ok?
    ensures var a0 := Load(stored, asset).value;
            && ApplyEffect(schema, a0.meta.duration, d0, Classify(o)) == Ok(d)
            && Merge(a0, d).Ok?
            && Apply(schema, stored, projection, asset, ops + [o]).value.1 == Project(Merge(a0, d).value, asset, FinishLabels(d))
  {
    var a0 := Load(stored, asset).value;
    FoldNext(schema, a0.meta.duration, Begin(stored, projection), ops, o);
    d0 := Fold(schema, a0.meta.duration, Begin(stored, projection), ops).value;
    d := Fold(schema, a0.meta.duration, Begin(stored, projection), ops + [o]).value;
  }

  lemma {:induction false} WriteShows(schema: Schema, stored: Stored, projection: Object, asset: Asset, ops: seq<Operation>, o: Operation, name: string)
    requires Apply(schema, stored, projection, asset, ops + [o]).Ok? && o.value.Some? && Classify(o) == Write([name], o.value.value)
    requires name != "labels" && (name in BUILT ==> name in {"title", "usable"})
    ensures At(Apply(schema, stored, projection, asset, ops + [o]).value.1, name) == Some(o.value.value)
  {
    var d0, d := AppliedLast(schema, stored, projection, asset, ops, o);
    WriteTop(d0.light, name, o.value.value);
    ProjectAt(Merge(Load(stored, asset).value, d).value, asset, FinishLabels(d), name);
  }

  /** A title or a usable flag given last by its own path shows. */
  lemma {:induction false} OwnPathShows(schema: Schema, stored: Stored, projection: Object, asset: Asset, ops: seq<Operation>, o: Operation, name: string)
    requires Effective(o) && Apply(schema, stored, projection, asset, ops + [o]).Ok?
    requires name in {"title", "usable"} && o.path.value == "/" + name
    ensures At(Apply(schema, stored, projection, asset, ops + [o]).value.1, name) == Some(o.value.value)
  {
    OwnPathWrite(o, name);
    WriteShows(schema, stored, projection, asset, ops, o, name);
  }

  lemma {:induction false} NotBuilt(name: string)
    requires Free(name) && name !in {"labels", "quality_report", "usage_windows", "annotation_status"}
    ensures name != "labels" && (name in BUILT ==> name in {"title", "usable"})
  {
  }

  /** So does a free name given last in the projection, but for labels and the layers that are rebuilt. */
  lemma {:induction false} FreeNameShows(schema: Schema, stored: Stored, projection: Object, asset: Asset, ops: seq<Operation>, o: Operation, name: string)
    requires Effective(o) && Apply(schema, stored, projection, asset, ops + [o]).Ok?
    requires Free(name) && name !in {"labels", "quality_report", "usage_windows", "annotation_status"} && o.path.value == "/projection/" + name
    ensures At(Apply(schema, stored, projection, asset, ops + [o]).value.1, name) == Some(o.value.value)
  {
    ProjectionWrite(o, name);
    NotBuilt(name);
    WriteShows(schema, stored, projection, asset, ops, o, name);
  }

  /** And labels given last by their own path. */
  lemma {:induction false} LabelsShow(schema: Schema, stored: Stored, projection: Object, asset: Asset, ops: seq<Operation>, o: Operation)
    requires Effective(o) && Apply(schema, stored, projection, asset, ops + [o]).Ok? && o.path.value == "/labels"
    ensures At(Apply(schema, stored, projection, asset, ops + [o]).value.1, "labels") == Some(o.value.value)
  {
    LabelsPath(o);
    var d0, d := AppliedLast(schema, stored, projection, asset, ops, o);
    ProjectAt(Merge(Load(stored, asset).value, d).value, asset, FinishLabels(d), "labels");
  }

  /** Without an operation on them, stored labels that are a list or an object show where the projection has none. */
  lemma {:induction false} StoredLabelsShow(schema: Schema, labels: Json, projection: Object, asset: Asset)
    requires Apply(schema, Stub(Some(labels)), projection, asset, []).Ok?
    ensures At(Apply(schema, Stub(Some(labels)), projection, asset, []).value.1, "labels") ==
            if "labels" in projection then Some(projection["labels"]) else if labels.JArr? || labels.JObj? then Some(labels) else None
  {
    ProjectAt(EmptyShell(asset), asset, FinishLabels(Begin(Stub(Some(labels)), projection)), "labels");
  }
}
