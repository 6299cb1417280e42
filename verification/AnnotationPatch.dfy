/** Editor patches merged into the canonical annotation, and the projection rebuilt from it. */
module AnnotationPatch {
  import opened Results
  import opened JsonTree
  import opened Text
  import Decimal

  datatype Error = SchemaMismatch | InvalidTimeline | TypeFailure

  /** One validated clip, BGM segment, quality event or usage window: its bounds and its JSON dump. */
  datatype Timed = Timed(start: real, end: real, dump: Json)

  datatype Meta = Meta(assetId: string, caseId: string, materialType: string, duration: real, status: string)

  datatype Annotation = Annotation(
    meta: Meta, clips: seq<Timed>, bgm: seq<Timed>, events: seq<Timed>,
    report: Json, windows: seq<Timed>, evidence: seq<real>, images: Json)

  datatype Asset = Asset(id: string, caseId: string, kind: string, title: string)

  /** The stored canonical: a labels-only stub, a parsed V4 annotation, or V4-looking data that does not parse. */
  datatype Stored = Stub(labels: Option<Json>) | V4(annotation: Annotation) | Malformed

  /** op is None when the key is absent, path when it is absent or no string. */
  datatype Operation = Operation(op: Option<string>, path: Option<string>, value: Option<Json>)

  /** The contract models' own checks: what each accepts, the duration derived from start and end, and how a
      truthy usage value that is no object is turned into one (None when that raises). */
  datatype Schema = Schema(
    clip: Object -> Option<Timed>, event: Object -> Option<Timed>, segment: Object -> Option<Timed>,
    span: Object -> Json, usage: Json -> Option<Object>)

  // ---- AnnotationV4 -------------------------------------------------------

  predicate Fits(x: Timed, duration: real) {
    duration <= 0.0 || (x.start >= 0.0 && x.end <= duration + 0.000001)
  }

  /** AnnotationV4's own bounds check over every time-bearing layer. */
  predicate WellTimed(a: Annotation) {
    && (forall x <- a.clips + a.bgm + a.events + a.windows :: Fits(x, a.meta.duration))
    && (a.meta.duration > 0.0 ==> forall t <- a.evidence :: 0.0 <= t <= a.meta.duration + 0.000001)
  }

  function EmptyShell(asset: Asset): Annotation {
    Annotation(Meta(asset.id, asset.caseId, asset.kind, 0.0, "completed"), [], [], [], JObj(map[]), [], [], JArr([]))
  }

  function Load(stored: Stored, asset: Asset): Result<Annotation, Error> {
    match stored
    case Stub(_) => Ok(EmptyShell(asset))
    case V4(a) => if WellTimed(a) then Ok(a) else Err(SchemaMismatch)
    case Malformed => Err(SchemaMismatch)
  }

  // ---- validation of structural values ------------------------------------

  function Default(item: Object, key: string, v: Json): Object {
    if key in item then item else item[key := v]
  }

  predicate Truthy(j: Json) {
    match j
    case JNull => false
    case JBool(b) => b
    case JNum(n) => n != 0.0
    case JStr(s) => s != ""
    case JArr(xs) => xs != []
    case JObj(m) => m != map[]
  }

  datatype Kind = ClipKind | EventKind | BgmKind

  /** The defaults the patch service fills in before the contract model sees an element. */
  function Prepare(schema: Schema, kind: Kind, raw: Object, index: nat): Result<Object, Error> {
    match kind
    case ClipKind =>
      var named := Default(raw, "segment_id", JStr("seg_edit_" + Decimal.Print(index)));
      var usage :=
        if "usage" !in raw || !Truthy(raw["usage"]) then Some(map[])
        else if raw["usage"].JObj? then Some(raw["usage"].fields)
        else schema.usage(raw["usage"]);
      if usage.None? then Err(TypeFailure)
      else
        var used := named["usage" := JObj(Default(usage.value, "role", JStr("cover")))];
        Ok(Default(used, "duration", schema.span(used)))
    case EventKind =>
      Ok(Default(Default(raw, "event_id", JStr("qe_edit_" + Decimal.Print(index))), "source", JStr("manual")))
    case BgmKind =>
      var named := Default(raw, "segment_id", JStr("bgm_edit_" + Decimal.Print(index)));
      Ok(Default(named, "duration", schema.span(named)))
  }

  function Accept(schema: Schema, kind: Kind, item: Object): Option<Timed> {
    match kind
    case ClipKind => schema.clip(item)
    case EventKind => schema.event(item)
    case BgmKind => schema.segment(item)
  }

  function ValidateOne(schema: Schema, kind: Kind, duration: real, raw: Json, index: nat): Result<Timed, Error> {
    if !raw.JObj? then Err(SchemaMismatch)
    else
      var item := Prepare(schema, kind, raw.fields, index);
      if item.Err? then Err(item.error)
      else
        var x := Accept(schema, kind, item.value);
        if x.None? then Err(SchemaMismatch)
        else if !Fits(x.value, duration) then Err(InvalidTimeline)
        else Ok(x.value)
  }

  /** The first n elements, validated in order up to the first that fails. */
  function ValidateTo(schema: Schema, kind: Kind, duration: real, raws: seq<Json>, n: nat): Result<seq<Timed>, Error>
    requires n <= |raws|
  {
    if n == 0 then Ok([])
    else
      var front := ValidateTo(schema, kind, duration, raws, n - 1);
      if front.Err? then front
      else
        var x := ValidateOne(schema, kind, duration, raws[n - 1], n - 1);
        if x.Err? then Err(x.error) else Ok(front.value + [x.value])
  }

  function Validate(schema: Schema, kind: Kind, duration: real, value: Json): Result<seq<Timed>, Error> {
    if !value.JArr? then Err(SchemaMismatch) else ValidateTo(schema, kind, duration, value.items, |value.items|)
  }

  lemma {:induction false} FailureStays(schema: Schema, kind: Kind, duration: real, raws: seq<Json>, n: nat, m: nat)
    requires n <= m <= |raws| && ValidateTo(schema, kind, duration, raws, n).Err?
    ensures ValidateTo(schema, kind, duration, raws, m) == ValidateTo(schema, kind, duration, raws, n)
  {
    if n < m {
      FailureStays(schema, kind, duration, raws, n, m - 1);
    }
  }

  lemma {:induction false} ElementFits(schema: Schema, kind: Kind, duration: real, raw: Json, index: nat)
    ensures var x := ValidateOne(schema, kind, duration, raw, index); x.Ok? ==> Fits(x.value, duration)
  {
  }

  /** A structural value is accepted as a whole: one validated element per raw one, in order, each as the
      contract model accepts it and inside the known duration. */
  lemma {:induction false} ValidatedElements(schema: Schema, kind: Kind, duration: real, raws: seq<Json>, n: nat)
    requires n <= |raws| && ValidateTo(schema, kind, duration, raws, n).Ok?
    ensures var xs := ValidateTo(schema, kind, duration, raws, n).value;
            && |xs| == n
            && (forall k :: 0 <= k < n ==> ValidateOne(schema, kind, duration, raws[k], k) == Ok(xs[k]))
            && (forall k :: 0 <= k < n ==> Fits(xs[k], duration))
  {
    if n > 0 {
      ValidatedElements(schema, kind, duration, raws, n - 1);
      var front, xs := ValidateTo(schema, kind, duration, raws, n - 1).value, ValidateTo(schema, kind, duration, raws, n).value;
      ElementFits(schema, kind, duration, raws[n - 1], n - 1);
      assert xs == front + [xs[n - 1]];
      forall k | 0 <= k < n ensures ValidateOne(schema, kind, duration, raws[k], k) == Ok(xs[k]) && Fits(xs[k], duration) {
        if k < n - 1 { assert xs[k] == front[k]; }
      }
    }
  }

  // ---- operations ---------------------------------------------------------

  const NOTES := "canonical_notes"

  datatype Effect =
    | Ignored
    | Deprecated
    | Structural(kind: Kind, value: Json)
    | Labels(value: Json)
    | Write(parts: seq<string>, value: Json)
    | Note(parts: seq<string>, value: Json)

  function PartsFrom(path: string, current: string): seq<string> {
    if path == "" then (if current == "" then [] else [current])
    else if path[0] == '/' then (if current == "" then [] else [current]) + PartsFrom(path[1..], "")
    else PartsFrom(path[1..], current + [path[0]])
  }

  /** The non-empty components of a slash-separated path. */
  function Parts(path: string): seq<string> {
    PartsFrom(path, "")
  }

  function Classify(o: Operation): Effect {
    if (o.op.Some? && o.op.value != "add" && o.op.value != "replace") || o.path.None? || o.value.None? then Ignored
    else
      var path, value := o.path.value, o.value.value;
      if "bgm_usage_windows" in Parts(path) then Deprecated
      else if path == "/canonical/segments" || path == "/projection/segments" || path == "/canonical/clips" then Structural(ClipKind, value)
      else if path == "/canonical/quality_events" || path == "/projection/quality_events" then Structural(EventKind, value)
      else if path == "/canonical/bgm_segments" || path == "/projection/bgm_segments" then Structural(BgmKind, value)
      else if path == "/labels" then Labels(value)
      else if path == "/usable" then Write(["usable"], value)
      else if path == "/title" then Write(["title"], value)
      else if StartsWith(path, "/projection/") then
        var parts := Parts(path[|"/projection/"|..]);
        if parts == [] then Ignored else Write(parts, value)
      else if StartsWith(path, "/canonical/") then Note(Parts(path[|"/canonical/"|..]), value)
      else Ignored
  }

  /** The loop variables of apply_patch. */
  datatype Draft = Draft(
    clips: Option<seq<Timed>>, events: Option<seq<Timed>>, bgm: Option<seq<Timed>>,
    light: Object, labels: Option<Json>, touched: bool)

  /** setdefault(canonical_notes) and a nested write into it; a value there that is no object raises. */
  function WriteNote(light: Object, parts: seq<string>, value: Json): Result<Object, Error> {
    var light' := Default(light, NOTES, JObj(map[]));
    if parts == [] then Ok(light')
    else if !light'[NOTES].JObj? then Err(TypeFailure)
    else Ok(light'[NOTES := SetIn(Some(light'[NOTES]), parts, value)])
  }

  function ApplyEffect(schema: Schema, duration: real, d: Draft, e: Effect): Result<Draft, Error> {
    match e
    case Ignored => Ok(d)
    case Deprecated => Err(SchemaMismatch)
    case Structural(kind, value) =>
      var r := Validate(schema, kind, duration, value);
      if r.Err? then Err(r.error)
      else (match kind
            case ClipKind => Ok(d.(clips := Some(r.value)))
            case EventKind => Ok(d.(events := Some(r.value)))
            case BgmKind => Ok(d.(bgm := Some(r.value))))
    case Labels(v) => Ok(d.(labels := Some(v), touched := true))
    case Write(parts, v) => Ok(d.(light := FieldsOf(Some(SetIn(Some(JObj(d.light)), parts, v)))))
    case Note(parts, v) =>
      var r := WriteNote(d.light, parts, v);
      if r.Err? then Err(r.error) else Ok(d.(light := r.value))
  }

  function Fold(schema: Schema, duration: real, d: Draft, ops: seq<Operation>): Result<Draft, Error>
    decreases |ops|
  {
    if ops == [] then Ok(d)
    else
      var r := ApplyEffect(schema, duration, d, Classify(ops[0]));
      if r.Err? then r else Fold(schema, duration, r.value, ops[1..])
  }

  // ---- merge and projection -----------------------------------------------

  function Or<T>(o: Option<T>, d: T): T {
    if o.Some? then o.value else d
  }

  function Merge(a: Annotation, d: Draft): Result<Annotation, Error> {
    if d.clips.None? && d.events.None? && d.bgm.None? then Ok(a)
    else
      var merged := a.(clips := Or(d.clips, a.clips), events := Or(d.events, a.events), bgm := Or(d.bgm, a.bgm));
      if WellTimed(merged) then Ok(merged) else Err(SchemaMismatch)
  }

  const BUILT: set<string> :=
    {"title", "usable", "segments", "quality_events", "quality_report", "usage_windows", "bgm_segments", "annotation_status"}

  function Dumps(xs: seq<Timed>): Json {
    JArr(seq(|xs|, i requires 0 <= i < |xs| => xs[i].dump))
  }

  function Layers(a: Annotation): Object {
    map["annotation_status" := JStr(a.meta.status),
        "segments" := Dumps(a.clips),
        "quality_events" := Dumps(a.events),
        "quality_report" := a.report,
        "usage_windows" := Dumps(a.windows),
        "bgm_segments" := Dumps(a.bgm)]
  }

  function Build(a: Annotation, asset: Asset, extra: Object): Object {
    Layers(a)
    + map["title" := JStr(asset.title), "usable" := JBool(a.meta.status != "failed" && a.windows != [])]
    + extra
  }

  function FinishLabels(d: Draft): Object {
    if d.touched then d.light["labels" := Or(d.labels, JNull)]
    else if "labels" !in d.light && d.labels.Some? && (d.labels.value.JArr? || d.labels.value.JObj?)
    then d.light["labels" := d.labels.value]
    else d.light
  }

  function Project(a: Annotation, asset: Asset, light: Object): Object {
    var p := Build(a, asset, light - BUILT);
    var p1 := if "title" in light then p["title" := light["title"]] else p;
    if "usable" in light then p1["usable" := light["usable"]] else p1
  }

  /** A carried key with the name of a parameter of build_projection raises when the projection is rebuilt. */
  predicate NamesParameter(light: Object) { "annotation" in light || "asset" in light }

  function StoredLabels(stored: Stored): Option<Json> {
    if stored.Stub? then stored.labels else None
  }

  function Begin(stored: Stored, projection: Object): Draft {
    Draft(None, None, None, projection, StoredLabels(stored), false)
  }

  function Apply(schema: Schema, stored: Stored, projection: Object, asset: Asset, ops: seq<Operation>): Result<(Annotation, Object), Error> {
    var a := Load(stored, asset);
    if a.Err? then Err(a.error)
    else
      var d := Fold(schema, a.value.meta.duration, Begin(stored, projection), ops);
      if d.Err? then Err(d.error)
      else
        var a' := Merge(a.value, d.value);
        if a'.Err? then Err(a'.error)
        else if NamesParameter(FinishLabels(d.value)) then Err(TypeFailure)
        else Ok((a'.value, Project(a'.value, asset, FinishLabels(d.value))))
  }

  // ---- the methods --------------------------------------------------------

  method ValidateElements(schema: Schema, kind: Kind, duration: real, value: Json) returns (r: Result<seq<Timed>, Error>)
    ensures r == Validate(schema, kind, duration, value)
  {
    if !value.JArr? { return Err(SchemaMismatch); }
    var xs: seq<Timed> := [];
    for k := 0 to |value.items|
      invariant ValidateTo(schema, kind, duration, value.items, k) == Ok(xs)
    {
      var x := ValidateOne(schema, kind, duration, value.items[k], k);
      if x.Err? {
        FailureStays(schema, kind, duration, value.items, k + 1, |value.items|);
        return Err(x.error);
      }
      xs := xs + [x.value];
    }
    return Ok(xs);
  }

  /** One turn of the loop. */
  method ApplyOperation(schema: Schema, duration: real, d: Draft, o: Operation) returns (r: Result<Draft, Error>)
    ensures r == ApplyEffect(schema, duration, d, Classify(o))
  {
    match Classify(o)
    case Ignored => return Ok(d);
    case Deprecated => return Err(SchemaMismatch);
    case Structural(kind, value) =>
      var xs := ValidateElements(schema, kind, duration, value);
      if xs.Err? { return Err(xs.error); }
      match kind {
        case ClipKind => return Ok(d.(clips := Some(xs.value)));
        case EventKind => return Ok(d.(events := Some(xs.value)));
        case BgmKind => return Ok(d.(bgm := Some(xs.value)));
      }
    case Labels(v) => return Ok(d.(labels := Some(v), touched := true));
    case Write(parts, v) => return Ok(d.(light := FieldsOf(Some(SetIn(Some(JObj(d.light)), parts, v)))));
    case Note(parts, v) =>
      var noted := WriteNote(d.light, parts, v);
      return if noted.Err? then Err(noted.error) else Ok(d.(light := noted.value));
  }

  method ApplyPatch(schema: Schema, stored: Stored, projection: Object, asset: Asset, ops: seq<Operation>)
    returns (r: Result<(Annotation, Object), Error>)
    ensures r == Apply(schema, stored, projection, asset, ops)
  {
    var loaded := Load(stored, asset);
    if loaded.Err? { return Err(loaded.error); }
    var duration := loaded.value.meta.duration;
    var d := Begin(stored, projection);
    for k := 0 to |ops|
      invariant Fold(schema, duration, Begin(stored, projection), ops) == Fold(schema, duration, d, ops[k..])
    {
      assert ops[k..][0] == ops[k] && ops[k..][1..] == ops[k + 1..];
      var next := ApplyOperation(schema, duration, d, ops[k]);
      if next.Err? { return Err(next.error); }
      d := next.value;
    }
    var merged := Merge(loaded.value, d);
    if merged.Err? { return Err(merged.error); }
    var carried := FinishLabels(d);
    if NamesParameter(carried) { return Err(TypeFailure); }
    return Ok((merged.value, Project(merged.value, asset, carried)));
  }
}
