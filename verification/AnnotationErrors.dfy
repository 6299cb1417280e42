/** When a patch raises, with what, and what it notes. */
module AnnotationErrors {
  import opened Results
  import opened JsonTree
  import opened Text
  import opened AnnotationPatch
  import opened AnnotationLaws
  import opened AnnotationViews
  import Decimal

  // ---- bounds -------------------------------------------------------------

  /** Inside a known duration, give or take a microsecond. */
  predicate Inside(x: Timed, duration: real) { duration > 0.0 ==> 0.0 <= x.start && x.end <= duration + 0.000001 }

  /** Every layer with times is inside the duration of the annotation. */
  predicate InBounds(a: Annotation) {
    && (forall x <- a.clips :: Inside(x, a.meta.duration)) && (forall x <- a.events :: Inside(x, a.meta.duration))
    && (forall x <- a.bgm :: Inside(x, a.meta.duration)) && (forall x <- a.windows :: Inside(x, a.meta.duration))
    && (forall t <- a.evidence :: a.meta.duration > 0.0 ==> 0.0 <= t && t <= a.meta.duration + 0.000001)
  }

  lemma {:induction false} BoundsExactly(a: Annotation)
    ensures WellTimed(a) <==> InBounds(a)
  {
    var all := a.clips + a.bgm + a.events + a.windows;
    assert forall x :: x in all <==> x in a.clips || x in a.bgm || x in a.events || x in a.windows;
    assert forall x :: Fits(x, a.meta.duration) <==> Inside(x, a.meta.duration);
  }

  // ---- one element --------------------------------------------------------

  /** The element completed as its contract model gets it. */
  ghost predicate Completed(schema: Schema, kind: Kind, raw: Object, k: nat, item: Object) {
    match kind
    case ClipKind => CompletedClip(schema, raw, k, item)
    case EventKind => CompletedEvent(raw, k, item)
    case BgmKind => CompletedBgm(schema, raw, k, item)
  }

  function Model(schema: Schema, kind: Kind): Object -> Option<Timed> {
    if kind.ClipKind? then schema.clip else if kind.EventKind? then schema.event else schema.segment
  }

  /** A usage value that is no object and cannot be made one. */
  predicate BadUsage(schema: Schema, kind: Kind, raw: Object) {
    kind.ClipKind? && "usage" in raw && !Blank(raw["usage"]) && !raw["usage"].JObj? && schema.usage(raw["usage"]).None?
  }

  /** How an element fails: it is no object, its usage is none, its model refuses it, or it is out of bounds. */
  ghost predicate Fails(schema: Schema, kind: Kind, duration: real, raw: Json, k: nat, e: Error) {
    if !raw.JObj? then e == SchemaMismatch
    else if BadUsage(schema, kind, raw.fields) then e == TypeFailure
    else exists item :: Completed(schema, kind, raw.fields, k, item)
           && (if Model(schema, kind)(item).None? then e == SchemaMismatch else !Inside(Model(schema, kind)(item).value, duration) && e == InvalidTimeline)
  }

  lemma {:induction false} PreparedIs(schema: Schema, kind: Kind, raw: Object, k: nat)
    ensures Prepare(schema, kind, raw, k) == Err(TypeFailure) <==> BadUsage(schema, kind, raw)
    ensures Prepare(schema, kind, raw, k).Err? ==> Prepare(schema, kind, raw, k).error.TypeFailure?
    ensures Prepare(schema, kind, raw, k).Ok? ==> Completed(schema, kind, raw, k, Prepare(schema, kind, raw, k).value)
  {
    match kind
    case ClipKind =>
      if "usage" in raw { assert Blank(raw["usage"]) <==> !Truthy(raw["usage"]); }
      if Prepare(schema, kind, raw, k).Ok? { PreparedClip(schema, raw, k); }
    case EventKind =>
    case BgmKind => PreparedBgm(schema, raw, k);
  }

  lemma {:induction false} SameObject(a: Object, b: Object)
    requires forall key :: At(a, key) == At(b, key)
    ensures a == b
  {
    forall key ensures key in a <==> key in b { assert At(a, key) == At(b, key); }
    forall key | key in a ensures a[key] == b[key] { assert At(a, key) == At(b, key); }
  }

  lemma {:induction false} SameEvent(raw: Object, k: nat, a: Object, b: Object)
    requires CompletedEvent(raw, k, a) && CompletedEvent(raw, k, b)
    ensures a == b
  {
    forall key ensures At(a, key) == At(b, key) { assert key !in {"event_id", "source"} ==> At(a, key) == At(raw, key) == At(b, key); }
    SameObject(a, b);
  }

  lemma {:induction false} SameTimed(schema: Schema, raw: Object, a: Object, b: Object, keys: set<string>)
    requires OthersKept(raw, a, keys) && OthersKept(raw, b, keys) && "duration" in keys
    requires forall key <- keys :: key != "duration" ==> key in a && key in b && a[key] == b[key]
    requires KeptOr(raw, a, "duration", schema.span(a - {"duration"})) && KeptOr(raw, b, "duration", schema.span(b - {"duration"}))
    ensures a == b
  {
    forall key | key != "duration" ensures At(a, key) == At(b, key) { assert key !in keys ==> At(a, key) == At(raw, key) == At(b, key); }
    forall key ensures At(a - {"duration"}, key) == At(b - {"duration"}, key) {
      assert key != "duration" ==> At(a - {"duration"}, key) == At(a, key) && At(b - {"duration"}, key) == At(b, key);
    }
    SameObject(a - {"duration"}, b - {"duration"});
    SameObject(a, b);
  }

  lemma {:induction false} SameUsage(usage: Object, a: Object, b: Object)
    requires OthersKept(usage, a, {"role"}) && OthersKept(usage, b, {"role"})
    requires KeptOr(usage, a, "role", JStr("cover")) && KeptOr(usage, b, "role", JStr("cover"))
    ensures a == b
  {
    forall key ensures At(a, key) == At(b, key) { assert key != "role" ==> At(a, key) == At(usage, key) == At(b, key); }
    SameObject(a, b);
  }

  lemma {:induction false} SameClip(schema: Schema, raw: Object, k: nat, a: Object, b: Object)
    requires CompletedClip(schema, raw, k, a) && CompletedClip(schema, raw, k, b)
    ensures a == b
  {
    if "usage" in raw && !Blank(raw["usage"]) {
      var usage := if raw["usage"].JObj? then raw["usage"].fields else schema.usage(raw["usage"]).value;
      SameUsage(usage, a["usage"].fields, b["usage"].fields);
    }
    SameTimed(schema, raw, a, b, {"segment_id", "usage", "duration"});
  }

  /** There is one way to complete an element. */
  lemma {:induction false} CompletedOnce(schema: Schema, kind: Kind, raw: Object, k: nat, a: Object, b: Object)
    requires Completed(schema, kind, raw, k, a) && Completed(schema, kind, raw, k, b)
    ensures a == b
  {
    match kind
    case ClipKind => SameClip(schema, raw, k, a, b);
    case EventKind => SameEvent(raw, k, a, b);
    case BgmKind => SameTimed(schema, raw, a, b, {"segment_id", "duration"});
  }

  lemma {:induction false} FailsExactly(schema: Schema, kind: Kind, duration: real, raw: Json, k: nat, e: Error)
    ensures ValidateOne(schema, kind, duration, raw, k) == Err(e) <==> Fails(schema, kind, duration, raw, k, e)
  {
    if raw.JObj? {
      PreparedIs(schema, kind, raw.fields, k);
      if !BadUsage(schema, kind, raw.fields) {
        var item := Prepare(schema, kind, raw.fields, k).value;
        forall other | Completed(schema, kind, raw.fields, k, other) ensures other == item {
          CompletedOnce(schema, kind, raw.fields, k, item, other);
        }
        assert Accept(schema, kind, item) == Model(schema, kind)(item);
      }
    }
  }

  ghost predicate Fine(schema: Schema, kind: Kind, duration: real, raw: Json, k: nat) {
    forall e :: !Fails(schema, kind, duration, raw, k, e)
  }

  lemma {:induction false} FineExactly(schema: Schema, kind: Kind, duration: real, raw: Json, k: nat)
    ensures ValidateOne(schema, kind, duration, raw, k).Ok? <==> Fine(schema, kind, duration, raw, k)
  {
    var x := ValidateOne(schema, kind, duration, raw, k);
    if x.Ok? {
      forall e ensures !Fails(schema, kind, duration, raw, k, e) { FailsExactly(schema, kind, duration, raw, k, e); }
    } else {
      FailsExactly(schema, kind, duration, raw, k, x.error);
    }
  }

  // ---- a layer ------------------------------------------------------------

  ghost predicate AllFine(schema: Schema, kind: Kind, duration: real, raws: seq<Json>, n: nat)
    requires n <= |raws|
  {
    forall j :: 0 <= j < n ==> Fine(schema, kind, duration, raws[j], j)
  }

  /** The k-th of the first n elements fails, and none before it does. */
  ghost predicate FirstFails(schema: Schema, kind: Kind, duration: real, raws: seq<Json>, n: nat, k: int, e: Error)
    requires n <= |raws|
  {
    0 <= k < n && AllFine(schema, kind, duration, raws, k) && Fails(schema, kind, duration, raws[k], k, e)
  }

  /** How the value of a layer fails: it is no array, or one of its elements is the first to fail. */
  ghost predicate LayerFails(schema: Schema, kind: Kind, duration: real, value: Json, e: Error) {
    if !value.JArr? then e == SchemaMismatch
    else exists k :: FirstFails(schema, kind, duration, value.items, |value.items|, k, e)
  }

  lemma {:induction false} FineLast(schema: Schema, kind: Kind, duration: real, raws: seq<Json>, n: nat)
    requires 0 < n <= |raws|
    ensures AllFine(schema, kind, duration, raws, n) <==>
            AllFine(schema, kind, duration, raws, n - 1) && Fine(schema, kind, duration, raws[n - 1], n - 1)
  {
  }

  lemma {:induction false} AllFineExactly(schema: Schema, kind: Kind, duration: real, raws: seq<Json>, n: nat)
    requires n <= |raws|
    ensures ValidateTo(schema, kind, duration, raws, n).Ok? <==> AllFine(schema, kind, duration, raws, n)
  {
    if n > 0 {
      AllFineExactly(schema, kind, duration, raws, n - 1);
      FineLast(schema, kind, duration, raws, n);
      FineExactly(schema, kind, duration, raws[n - 1], n - 1);
    }
  }

  lemma {:induction false} FirstOfMore(schema: Schema, kind: Kind, duration: real, raws: seq<Json>, n: nat, k: int, e: Error)
    requires 0 < n <= |raws|
    ensures var m := n - 1;
            FirstFails(schema, kind, duration, raws, n, k, e) <==>
            if AllFine(schema, kind, duration, raws, m) then k == m && Fails(schema, kind, duration, raws[m], m, e)
            else FirstFails(schema, kind, duration, raws, m, k, e)
  {
    if 0 <= k < n - 1 && Fails(schema, kind, duration, raws[k], k, e) { assert !Fine(schema, kind, duration, raws[k], k); }
  }

  lemma {:induction false} FirstFailsExactly(schema: Schema, kind: Kind, duration: real, raws: seq<Json>, n: nat, e: Error)
    requires n <= |raws|
    ensures ValidateTo(schema, kind, duration, raws, n) == Err(e) <==> exists k :: FirstFails(schema, kind, duration, raws, n, k, e)
  {
    if n > 0 {
      FirstFailsExactly(schema, kind, duration, raws, n - 1, e);
      AllFineExactly(schema, kind, duration, raws, n - 1);
      FailsExactly(schema, kind, duration, raws[n - 1], n - 1, e);
      FirstOfMore(schema, kind, duration, raws, n, n - 1, e);
      var m := n - 1;
      if k :| FirstFails(schema, kind, duration, raws, m, k, e) { FirstOfMore(schema, kind, duration, raws, n, k, e); }
      if k :| FirstFails(schema, kind, duration, raws, n, k, e) { FirstOfMore(schema, kind, duration, raws, n, k, e); }
    }
  }

  lemma {:induction false} LayerFailsExactly(schema: Schema, kind: Kind, duration: real, value: Json, e: Error)
    ensures Validate(schema, kind, duration, value) == Err(e) <==> LayerFails(schema, kind, duration, value, e)
  {
    if value.JArr? { FirstFailsExactly(schema, kind, duration, value.items, |value.items|, e); }
  }

  // ---- an operation -------------------------------------------------------

  predicate HasPart(o: Operation, part: string) { o.path.Some? && part in Parts(o.path.value) }

  /** The operation notes something under the canonical: its path goes on after the prefix, and is none of a layer. */
  predicate Notes(o: Operation) {
    && Effective(o) && "/canonical/" <= o.path.value && Parts(o.path.value[11..]) != []
    && o.path.value !in {"/canonical/segments", "/canonical/clips", "/canonical/quality_events", "/canonical/bgm_segments"}
  }

  /** How an operation fails: its path has the deprecated component, the value of its layer fails, or it notes something
      where the notes are no object. */
  ghost predicate Stops(schema: Schema, duration: real, light: Object, o: Operation, e: Error) {
    && Effective(o)
    && if HasPart(o, "bgm_usage_windows") then e == SchemaMismatch
       else
         || (exists kind :: Replaces(o, kind) && LayerFails(schema, kind, duration, o.value.value, e))
         || (Notes(o) && "canonical_notes" in light && !light["canonical_notes"].JObj? && e == TypeFailure)
  }

  lemma {:induction false} DeprecatedExactly(o: Operation)
    ensures Effective(o) && HasPart(o, "bgm_usage_windows") <==> Classify(o).Deprecated?
  {
  }

  /** An operation notes something exactly when it is below the canonical prefix and names no layer. */
  lemma {:induction false} NotesExactly(o: Operation)
    requires !HasPart(o, "bgm_usage_windows")
    ensures Notes(o) <==> Classify(o).Note? && Classify(o).parts != []
  {
    if Effective(o) {
      assert |"/canonical/"| == 11;
      var path := o.path.value;
      if StartsWith(path, "/canonical/") { assert path[1] == 'c'; }
      if StartsWith(path, "/projection/") { assert path[1] == 'p'; }
      assert "/labels"[1] == 'l' && "/usable"[1] == 'u' && "/title"[1] == 't';
    }
  }

  lemma {:induction false} LayerStops(schema: Schema, duration: real, d: Draft, o: Operation, kind: Kind, e: Error)
    requires Replaces(o, kind) && !HasPart(o, "bgm_usage_windows")
    ensures ApplyEffect(schema, duration, d, Classify(o)) == Err(e) <==> LayerFails(schema, kind, duration, o.value.value, e)
  {
    EditsExactly(o, kind);
    LayerFailsExactly(schema, kind, duration, o.value.value, e);
  }

  lemma {:induction false} OneLayer(o: Operation, kind: Kind, other: Kind)
    requires Replaces(o, kind) && Replaces(o, other)
    ensures kind == other
  {
    EditsExactly(o, kind);
    EditsExactly(o, other);
  }

  lemma {:induction false} LayersNoteNothing(o: Operation, kind: Kind)
    requires Replaces(o, kind)
    ensures !Notes(o)
  {
    assert "/projection/segments"[1] == 'p' && "/projection/quality_events"[1] == 'p' && "/projection/bgm_segments"[1] == 'p';
    if "/canonical/" <= o.path.value { assert o.path.value[1] == "/canonical/"[1] == 'c'; }
  }

  lemma {:induction false} StructuralReplaces(o: Operation)
    requires Classify(o).Structural?
    ensures Replaces(o, Classify(o).kind)
  {
    EditsExactly(o, Classify(o).kind);
  }

  lemma {:induction false} LightEffectStops(schema: Schema, duration: real, d: Draft, c: Effect, e: Error)
    requires !c.Deprecated? && !c.Structural?
    ensures ApplyEffect(schema, duration, d, c) == Err(e) <==>
            c.Note? && c.parts != [] && "canonical_notes" in d.light && !d.light["canonical_notes"].JObj? && e == TypeFailure
  {
  }

  lemma {:induction false} NoteStops(schema: Schema, duration: real, d: Draft, o: Operation, e: Error)
    requires !HasPart(o, "bgm_usage_windows") && forall kind :: !Replaces(o, kind)
    ensures ApplyEffect(schema, duration, d, Classify(o)) == Err(e) <==>
            Notes(o) && "canonical_notes" in d.light && !d.light["canonical_notes"].JObj? && e == TypeFailure
  {
    NotesExactly(o);
    DeprecatedExactly(o);
    if Classify(o).Structural? { StructuralReplaces(o); }
    LightEffectStops(schema, duration, d, Classify(o), e);
  }

  lemma {:induction false} StopsExactly(schema: Schema, duration: real, d: Draft, o: Operation, e: Error)
    ensures ApplyEffect(schema, duration, d, Classify(o)) == Err(e) <==> Stops(schema, duration, d.light, o, e)
  {
    DeprecatedExactly(o);
    if !Effective(o) {
      assert Classify(o).Ignored?;
    } else if !HasPart(o, "bgm_usage_windows") {
      if kind :| Replaces(o, kind) {
        LayerStops(schema, duration, d, o, kind, e);
        forall other | Replaces(o, other) ensures other == kind { OneLayer(o, kind, other); }
        LayersNoteNothing(o, kind);
      } else {
        NoteStops(schema, duration, d, o, e);
      }
    }
  }

  // ---- the patch ----------------------------------------------------------

  /** The k-th operation is the first to fail, on what the ones before it left. */
  ghost predicate StopsAt(schema: Schema, duration: real, d: Draft, ops: seq<Operation>, k: int, e: Error) {
    && 0 <= k < |ops| && Fold(schema, duration, d, ops[..k]).Ok?
    && Stops(schema, duration, Fold(schema, duration, d, ops[..k]).value.light, ops[k], e)
  }

  lemma {:induction false} StopsLater(schema: Schema, duration: real, d: Draft, ops: seq<Operation>, k: int, e: Error)
    requires ops != [] && k >= 1
    ensures var r := ApplyEffect(schema, duration, d, Classify(ops[0]));
            StopsAt(schema, duration, d, ops, k, e) <==> r.Ok? && StopsAt(schema, duration, r.value, ops[1..], k - 1, e)
  {
    if k < |ops| {
      assert ops[..k][0] == ops[0] && ops[..k][1..] == ops[1..][..k - 1] && ops[1..][k - 1] == ops[k];
    }
  }

  lemma {:induction false} FoldStopsExactly(schema: Schema, duration: real, d: Draft, ops: seq<Operation>, e: Error)
    ensures Fold(schema, duration, d, ops) == Err(e) <==> exists k :: StopsAt(schema, duration, d, ops, k, e)
    decreases |ops|
  {
    if ops != [] {
      var r := ApplyEffect(schema, duration, d, Classify(ops[0]));
      StopsExactly(schema, duration, d, ops[0], e);
      assert ops[..0] == [];
      assert StopsAt(schema, duration, d, ops, 0, e) <==> r == Err(e);
      forall k | k >= 1 ensures StopsAt(schema, duration, d, ops, k, e) <==> r.Ok? && StopsAt(schema, duration, r.value, ops[1..], k - 1, e) {
        StopsLater(schema, duration, d, ops, k, e);
      }
      if r.Ok? {
        FoldStopsExactly(schema, duration, r.value, ops[1..], e);
        if k :| StopsAt(schema, duration, r.value, ops[1..], k, e) { assert StopsAt(schema, duration, d, ops, k + 1, e); }
      }
    }
  }

  // ---- the merge never fails ----------------------------------------------

  /** The layers edited so far are in bounds. */
  predicate EditedFits(d: Draft, duration: real) {
    && (d.clips.Some? ==> forall x <- d.clips.value :: Fits(x, duration))
    && (d.events.Some? ==> forall x <- d.events.value :: Fits(x, duration))
    && (d.bgm.Some? ==> forall x <- d.bgm.value :: Fits(x, duration))
  }

  lemma {:induction false} EffectFits(schema: Schema, duration: real, d: Draft, e: Effect)
    requires EditedFits(d, duration) && ApplyEffect(schema, duration, d, e).Ok?
    ensures EditedFits(ApplyEffect(schema, duration, d, e).value, duration)
  {
    if e.Structural? { ValidatedElements(schema, e.kind, duration, e.value.items, |e.value.items|); }
  }

  lemma {:induction false} FoldFits(schema: Schema, duration: real, d: Draft, ops: seq<Operation>)
    requires EditedFits(d, duration) && Fold(schema, duration, d, ops).Ok?
    ensures EditedFits(Fold(schema, duration, d, ops).value, duration)
    decreases |ops|
  {
    if ops != [] {
      EffectFits(schema, duration, d, Classify(ops[0]));
      FoldFits(schema, duration, ApplyEffect(schema, duration, d, Classify(ops[0])).value, ops[1..]);
    }
  }

  lemma {:induction false} MergeFits(a: Annotation, d: Draft)
    requires WellTimed(a) && EditedFits(d, a.meta.duration)
    ensures Merge(a, d).Ok? && WellTimed(Merge(a, d).value)
  {
    var m := a.(clips := Or(d.clips, a.clips), events := Or(d.events, a.events), bgm := Or(d.bgm, a.bgm));
    BoundsExactly(a);
    BoundsExactly(m);
  }

  predicate CarriesParameter(light: Object) { "annotation" in light || "asset" in light }

  /** The stored annotation does not parse, or is out of bounds. */
  predicate Unreadable(stored: Stored) { stored.Malformed? || (stored.V4? && !InBounds(stored.annotation)) }

  function Duration(stored: Stored): real { if stored.V4? then stored.annotation.meta.duration else 0.0 }

  lemma {:induction false} LoadExactly(stored: Stored, asset: Asset)
    ensures if Unreadable(stored) then Load(stored, asset) == Err(SchemaMismatch)
            else Load(stored, asset).Ok? && WellTimed(Load(stored, asset).value) && Load(stored, asset).value.meta.duration == Duration(stored)
  {
    if stored.V4? { BoundsExactly(stored.annotation); }
  }

  lemma {:induction false} ApplyRaises(schema: Schema, stored: Stored, projection: Object, asset: Asset, ops: seq<Operation>, e: Error)
    requires !Unreadable(stored)
    ensures var d := Fold(schema, Duration(stored), Begin(stored, projection), ops);
            Apply(schema, stored, projection, asset, ops) == Err(e) <==>
            d == Err(e) || (d.Ok? && CarriesParameter(d.value.light) && e == TypeFailure)
  {
    LoadExactly(stored, asset);
    var d := Fold(schema, Duration(stored), Begin(stored, projection), ops);
    if d.Ok? {
      FoldFits(schema, Duration(stored), Begin(stored, projection), ops);
      MergeFits(Load(stored, asset).value, d.value);
    }
  }

  /** A patch raises exactly when the stored annotation is unreadable, or an operation fails, on what those before it
      left, or the projection then carries a key named like a parameter of the rebuild. Merging layers that were taken
      never fails. */
  lemma {:induction false} PatchRaisesExactly(schema: Schema, stored: Stored, projection: Object, asset: Asset, ops: seq<Operation>, e: Error)
    ensures var d := Fold(schema, Duration(stored), Begin(stored, projection), ops);
            Apply(schema, stored, projection, asset, ops) == Err(e) <==>
            if Unreadable(stored) then e == SchemaMismatch
            else
              || (exists k :: StopsAt(schema, Duration(stored), Begin(stored, projection), ops, k, e))
              || (d.Ok? && CarriesParameter(d.value.light) && e == TypeFailure)
  {
    LoadExactly(stored, asset);
    if !Unreadable(stored) {
      ApplyRaises(schema, stored, projection, asset, ops, e);
      FoldStopsExactly(schema, Duration(stored), Begin(stored, projection), ops, e);
    }
  }

  /** Every layer of an accepted patch's annotation is inside its duration. */
  lemma {:induction false} PatchedInBounds(schema: Schema, stored: Stored, projection: Object, asset: Asset, ops: seq<Operation>)
    requires Apply(schema, stored, projection, asset, ops).Ok?
    ensures InBounds(Apply(schema, stored, projection, asset, ops).value.0)
  {
    LoadExactly(stored, asset);
    var a := Load(stored, asset).value;
    FoldFits(schema, a.meta.duration, Begin(stored, projection), ops);
    MergeFits(a, Fold(schema, a.meta.duration, Begin(stored, projection), ops).value);
    BoundsExactly(Apply(schema, stored, projection, asset, ops).value.0);
  }

  // ---- notes --------------------------------------------------------------

  /** A name that can be noted: it is none of a layer, and not deprecated. */
  predicate Notable(name: string) {
    Plain(name) && name !in {"segments", "clips", "quality_events", "bgm_segments", "bgm_usage_windows"}
  }

  lemma {:induction false} NotePath(name: string)
    requires Notable(name)
    ensures var path := "/canonical/" + name;
            path != "/canonical/segments" && path != "/canonical/clips" && path != "/canonical/quality_events" && path != "/canonical/bgm_segments"
  {
    SamePrefix("/canonical/", name, "segments");
    SamePrefix("/canonical/", name, "clips");
    SamePrefix("/canonical/", name, "quality_events");
    SamePrefix("/canonical/", name, "bgm_segments");
  }

  lemma {:induction false} NoteParts(name: string)
    requires Notable(name)
    ensures Parts("/canonical/" + name) == ["canonical", name] && "bgm_usage_windows" !in Parts("/canonical/" + name)
  {
    assert |"canonical"| == 9 && |"bgm_usage_windows"| == 17;
    TwoPlain("canonical", name, "/canonical/" + name);
  }

  lemma {:induction false} NoteIs(o: Operation)
    requires Classify(o).Note?
    ensures "/canonical/" <= o.path.value && Classify(o) == Note(Parts(o.path.value[|"/canonical/"|..]), o.value.value)
  {
  }

  lemma {:induction false} NoteWrite(o: Operation, name: string)
    requires Effective(o) && Notable(name) && o.path.value == "/canonical/" + name
    ensures Classify(o) == Note([name], o.value.value)
  {
    NoteParts(name);
    NotePath(name);
    OneComponent(name);
    assert |"/canonical/"| == 11 && o.path.value[11..] == name;
    NotesExactly(o);
    NoteIs(o);
  }

  predicate Noted(p: Object, name: string, v: Json) {
    "canonical_notes" in p && p["canonical_notes"].JObj? && At(p["canonical_notes"].fields, name) == Some(v)
  }

  lemma {:induction false} NoteTop(light: Object, name: string, v: Json)
    requires WriteNote(light, [name], v).Ok?
    ensures Noted(WriteNote(light, [name], v).value, name, v)
  {
    var notes := Default(light, NOTES, JObj(map[]))[NOTES];
    assert [name][1..] == [];
    assert SetIn(Some(notes), [name], v) == JObj(FieldsOf(Some(notes))[name := v]);
  }

  lemma {:induction false} SameNotes(light: Object, p: Object, name: string, v: Json)
    requires Noted(light, name, v) && At(p, "canonical_notes") == At(light, "canonical_notes")
    ensures Noted(p, name, v)
  {
  }

  lemma {:induction false} NoteEffect(schema: Schema, duration: real, d0: Draft, d: Draft, name: string, v: Json)
    requires ApplyEffect(schema, duration, d0, Note([name], v)) == Ok(d)
    ensures Noted(d.light, name, v)
  {
    NoteTop(d0.light, name, v);
  }

  lemma NotesAreCarried()
    ensures NOTES !in BUILT && NOTES != "labels"
  {
  }

  lemma {:induction false} LastNotes(schema: Schema, stored: Stored, projection: Object, asset: Asset, ops: seq<Operation>, o: Operation)
    returns (d0: Draft, d: Draft, p: Object)
    requires Apply(schema, stored, projection, asset, ops + [o]).Ok?
    ensures p == Apply(schema, stored, projection, asset, ops + [o]).value.1
    ensures ApplyEffect(schema, Load(stored, asset).value.meta.duration, d0, Classify(o)) == Ok(d)
    ensures At(p, NOTES) == At(d.light, NOTES)
  {
    d0, d := AppliedLast(schema, stored, projection, asset, ops, o);
    p := Project(Merge(Load(stored, asset).value, d).value, asset, FinishLabels(d));
    NotesAreCarried();
    CarriedAt(Merge(Load(stored, asset).value, d).value, asset, d, NOTES);
  }

  lemma {:induction false} LastNote(schema: Schema, stored: Stored, projection: Object, asset: Asset, ops: seq<Operation>, o: Operation, name: string, v: Json)
    requires Apply(schema, stored, projection, asset, ops + [o]).Ok? && Classify(o) == Note([name], v)
    ensures Noted(Apply(schema, stored, projection, asset, ops + [o]).value.1, name, v)
  {
    var d0, d, p := LastNotes(schema, stored, projection, asset, ops, o);
    NoteEffect(schema, Load(stored, asset).value.meta.duration, d0, d, name, v);
    SameNotes(d.light, p, name, v);
  }

  /** A note given last shows under its name among the notes. */
  lemma {:induction false} NoteShows(schema: Schema, stored: Stored, projection: Object, asset: Asset, ops: seq<Operation>, o: Operation, name: string)
    requires Effective(o) && Apply(schema, stored, projection, asset, ops + [o]).Ok? && Notable(name) && o.path.value == "/canonical/" + name
    ensures Noted(Apply(schema, stored, projection, asset, ops + [o]).value.1, name, o.value.value)
  {
    NoteWrite(o, name);
    LastNote(schema, stored, projection, asset, ops, o, name, o.value.value);
  }
}
