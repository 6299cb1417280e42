/** JSON values and writes at a path inside them. */
module JsonTree {
  import opened Results

  datatype Json =
    | JNull
    | JBool(flag: bool)
    | JNum(number: real)
    | JStr(text: string)
    | JArr(items: seq<Json>)
    | JObj(fields: map<string, Json>)

  type Object = map<string, Json>

  function At(m: Object, key: string): Option<Json> {
    if key in m then Some(m[key]) else None
  }

  /** What a write descends into: anything that is not an object is replaced by an empty one. */
  function FieldsOf(o: Option<Json>): Object {
    if o.Some? && o.value.JObj? then o.value.fields else map[]
  }

  /** The value left at a place after writing v at a path below it. */
  function SetIn(o: Option<Json>, parts: seq<string>, v: Json): Json
    decreases |parts|
  {
    if parts == [] then v
    else
      var m := FieldsOf(o);
      JObj(m[parts[0] := SetIn(At(m, parts[0]), parts[1..], v)])
  }

  type PathWrite = (seq<string>, Json)

  /** Writes applied in order. */
  function PutAll(o: Option<Json>, ps: seq<PathWrite>): Option<Json>
    decreases |ps|
  {
    if ps == [] then o else PutAll(Some(SetIn(o, ps[0].0, ps[0].1)), ps[1..])
  }

  /** The writes below one key, relative to it. */
  function Below(ps: seq<PathWrite>, key: string): seq<PathWrite> {
    if ps == [] then []
    else
      var rest := Below(ps[1..], key);
      if ps[0].0 != [] && ps[0].0[0] == key then [(ps[0].0[1..], ps[0].1)] + rest else rest
  }

  function Weight(ps: seq<PathWrite>): nat {
    if ps == [] then 0 else |ps[0].0| + Weight(ps[1..])
  }

  lemma {:induction false} BelowIsLighter(ps: seq<PathWrite>, key: string)
    ensures Weight(Below(ps, key)) + |Below(ps, key)| <= Weight(ps)
  {
    if ps != [] {
      BelowIsLighter(ps[1..], key);
      var rest := Below(ps[1..], key);
      if ps[0].0 != [] && ps[0].0[0] == key {
        assert ([(ps[0].0[1..], ps[0].1)] + rest)[1..] == rest;
      }
    }
  }

  predicate Deep(ps: seq<PathWrite>) {
    forall k :: 0 <= k < |ps| ==> ps[k].0 != []
  }

  /** Writes below the root act on each key separately. */
  lemma {:induction false} PutAllByKey(o: Option<Json>, ps: seq<PathWrite>, key: string)
    requires Deep(ps) && ps != []
    ensures PutAll(o, ps).Some? && PutAll(o, ps).value.JObj?
    ensures At(FieldsOf(PutAll(o, ps)), key) == PutAll(At(FieldsOf(o), key), Below(ps, key))
    decreases |ps|
  {
    var o' := Some(SetIn(o, ps[0].0, ps[0].1));
    var rest := Below(ps[1..], key);
    if ps[0].0[0] == key {
      assert Below(ps, key)[0] == (ps[0].0[1..], ps[0].1);
      assert Below(ps, key)[1..] == rest;
    }
    if |ps| > 1 {
      PutAllByKey(o', ps[1..], key);
    }
  }

  lemma {:induction false} PutAllConcat(o: Option<Json>, ps: seq<PathWrite>, qs: seq<PathWrite>)
    ensures PutAll(o, ps + qs) == PutAll(PutAll(o, ps), qs)
    decreases |ps|
  {
    if ps == [] {
      assert ps + qs == qs;
    } else {
      assert (ps + qs)[1..] == ps[1..] + qs;
      PutAllConcat(Some(SetIn(o, ps[0].0, ps[0].1)), ps[1..], qs);
    }
  }

  lemma {:induction false} SameFields(a: Object, b: Object)
    requires forall key :: At(a, key) == At(b, key)
    ensures a == b
  {
    forall key ensures key in a <==> key in b {
      assert At(a, key) == At(b, key);
    }
    forall key | key in a ensures a[key] == b[key] {
      assert At(a, key) == At(b, key);
    }
  }

  /** Replaying a list of writes changes nothing, whatever the paths and however they overlap. */
  lemma {:induction false} ReplayIsIdempotent(o: Option<Json>, ps: seq<PathWrite>)
    ensures PutAll(PutAll(o, ps), ps) == PutAll(o, ps)
    decreases Weight(ps)
  {
    if k :| 0 <= k < |ps| && ps[k].0 == [] {
      // A whole-value write forgets everything before it.
      assert ps == ps[..k] + ps[k..];
      PutAllConcat(o, ps[..k], ps[k..]);
      PutAllConcat(PutAll(o, ps), ps[..k], ps[k..]);
    } else if ps != [] {
      var once := PutAll(o, ps);
      var twice := PutAll(once, ps);
      forall key ensures At(FieldsOf(twice), key) == At(FieldsOf(once), key) {
        PutAllByKey(o, ps, key);
        PutAllByKey(once, ps, key);
        BelowIsLighter(ps, key);
        var below := Below(ps, key);
        if below != [] {
          ReplayIsIdempotent(At(FieldsOf(o), key), below);
        }
      }
      PutAllByKey(o, ps, "");
      PutAllByKey(once, ps, "");
      SameFields(FieldsOf(once), FieldsOf(twice));
    }
  }
}
