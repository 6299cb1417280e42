/** Valid stretches of a clip: the complement of its annotated invalid windows. */
module InvalidWindows {
  import opened Results
  import opened Sequences

  /** A half-open stretch [0, 1) of seconds. */
  type Window = (real, real)

  datatype Error = InvalidTimeline

  /** One entry of the annotated list; absent keys are None. */
  datatype Entry = NotAnObject | Entry(startSec: Option<real>, start: Option<real>, endSec: Option<real>, end: Option<real>)

  const SLACK: real := 0.03

  function Min(a: real, b: real): real { if a <= b then a else b }

  function Max(a: real, b: real): real { if a >= b then a else b }

  // ---- reading ------------------------------------------------------------

  function StartOf(e: Entry): real
    requires e.Entry?
  {
    if e.startSec.Some? then e.startSec.value else if e.start.Some? then e.start.value else 0.0
  }

  function EndOf(e: Entry): real
    requires e.Entry?
  {
    if e.endSec.Some? then e.endSec.value else if e.end.Some? then e.end.value else StartOf(e)
  }

  predicate Accepted(e: Entry, duration: real) {
    e.Entry? ==> StartOf(e) >= 0.0 && EndOf(e) >= StartOf(e) && EndOf(e) <= duration + SLACK
  }

  function Clamp(e: Entry, duration: real): Window
    requires e.Entry?
  {
    (Max(0.0, StartOf(e)), Min(duration, EndOf(e)))
  }

  function Clamped(es: seq<Entry>, duration: real): seq<Window> {
    if es == [] then []
    else
      var front := Clamped(es[..|es| - 1], duration);
      if es[|es| - 1].Entry? then front + [Clamp(es[|es| - 1], duration)] else front
  }

  /** Python's order on pairs. */
  predicate Before(a: Window, b: Window) {
    a.0 < b.0 || (a.0 == b.0 && a.1 <= b.1)
  }

  function Insert(w: Window, ws: seq<Window>): seq<Window> {
    if ws == [] || Before(w, ws[0]) then [w] + ws else [ws[0]] + Insert(w, ws[1..])
  }

  /** sorted(ws). */
  function Sort(ws: seq<Window>): seq<Window> {
    if ws == [] then [] else Insert(ws[0], Sort(ws[1..]))
  }

  /** None stands for a value that is no list. */
  function Read(value: Option<seq<Entry>>, duration: real): Result<seq<Window>, Error> {
    if value.None? then Ok([])
    else if exists k :: 0 <= k < |value.value| && !Accepted(value.value[k], duration) then Err(InvalidTimeline)
    else Ok(Sort(Clamped(value.value, duration)))
  }

  // ---- the sweep ----------------------------------------------------------

  /** The pieces the sweep emits from a cursor on, before the short ones are dropped. */
  function Sweep(ws: seq<Window>, cursor: real, duration: real): seq<Window> {
    if ws == [] then (if cursor < duration then [(cursor, duration)] else [])
    else (if ws[0].0 > cursor then [(cursor, ws[0].0)] else []) + Sweep(ws[1..], Max(cursor, ws[0].1), duration)
  }

  predicate Long(w: Window) { w.1 - w.0 > SLACK }

  function Keep(ws: seq<Window>): seq<Window> {
    if ws == [] then [] else (if Long(ws[0]) then [ws[0]] else []) + Keep(ws[1..])
  }

  function ValidSegments(value: Option<seq<Entry>>, duration: real): Result<seq<Window>, Error> {
    var ws := Read(value, duration);
    if ws.Err? then Err(ws.error) else Ok(Keep(Sweep(ws.value, 0.0, duration)))
  }

  // ---- the methods --------------------------------------------------------

  method ReadAnnotationSegments(value: Option<seq<Entry>>, duration: real) returns (r: Result<seq<Window>, Error>)
    ensures r == Read(value, duration)
  {
    if value.None? { return Ok([]); }
    var es := value.value;
    var windows: seq<Window> := [];
    for k := 0 to |es|
      invariant forall j :: 0 <= j < k ==> Accepted(es[j], duration)
      invariant windows == Clamped(es[..k], duration)
    {
      assert es[..k + 1][..k] == es[..k];
      if es[k].Entry? {
        var start, end := StartOf(es[k]), EndOf(es[k]);
        if start < 0.0 || end < start || end > duration + SLACK { return Err(InvalidTimeline); }
        windows := windows + [(Max(0.0, start), Min(duration, end))];
      }
    }
    assert es[..|es|] == es;
    return Ok(Sort(windows));
  }

  method ValidSegmentsFromAnnotation(value: Option<seq<Entry>>, duration: real) returns (r: Result<seq<Window>, Error>)
    ensures r == ValidSegments(value, duration)
  {
    var invalid := ReadAnnotationSegments(value, duration);
    if invalid.Err? { return Err(invalid.error); }
    var ws, valid, cursor := invalid.value, [], 0.0;
    assert forall rest: seq<Window> :: [] + rest == rest;
    for k := 0 to |ws|
      invariant Sweep(ws, 0.0, duration) == valid + Sweep(ws[k..], cursor, duration)
    {
      assert ws[k..][1..] == ws[k + 1..];
      if ws[k].0 > cursor {
        valid := valid + [(cursor, ws[k].0)];
      }
      cursor := Max(cursor, ws[k].1);
    }
    if cursor < duration {
      valid := valid + [(cursor, duration)];
    }
    assert valid == Sweep(ws, 0.0, duration);
    return Ok(Keep(valid));
  }

  // ---- points, order, length ----------------------------------------------

  predicate In(w: Window, x: real) { w.0 <= x < w.1 }

  predicate Covers(ws: seq<Window>, x: real) {
    exists k :: 0 <= k < |ws| && In(ws[k], x)
  }

  predicate Sorted(ws: seq<Window>) {
    forall i, j :: 0 <= i < j < |ws| ==> Before(ws[i], ws[j])
  }

  /** Non-empty pieces, each ending before the next begins. */
  predicate Ascending(ws: seq<Window>) {
    && (forall i :: 0 <= i < |ws| ==> ws[i].0 < ws[i].1)
    && (forall i, j :: 0 <= i < j < |ws| ==> ws[i].1 <= ws[j].0)
  }

  function Total(ws: seq<Window>): real {
    if ws == [] then 0.0 else ws[0].1 - ws[0].0 + Total(ws[1..])
  }

  lemma {:induction false} CoversTail(ws: seq<Window>, x: real)
    requires ws != []
    ensures Covers(ws, x) <==> In(ws[0], x) || Covers(ws[1..], x)
  {
    if Covers(ws, x) && !In(ws[0], x) {
      var k :| 0 <= k < |ws| && In(ws[k], x);
      assert ws[1..][k - 1] == ws[k];
    }
    if Covers(ws[1..], x) {
      var k :| 0 <= k < |ws[1..]| && In(ws[1..][k], x);
      assert In(ws[k + 1], x);
    }
  }

  lemma {:induction false} CoversConcat(a: seq<Window>, b: seq<Window>, x: real)
    ensures Covers(a + b, x) <==> Covers(a, x) || Covers(b, x)
  {
    if Covers(a + b, x) {
      var k :| 0 <= k < |a + b| && In((a + b)[k], x);
      if k >= |a| { assert In(b[k - |a|], x); } else { assert In(a[k], x); }
    }
    if Covers(a, x) {
      var k :| 0 <= k < |a| && In(a[k], x);
      assert (a + b)[k] == a[k];
    }
    if Covers(b, x) {
      var k :| 0 <= k < |b| && In(b[k], x);
      assert (a + b)[|a| + k] == b[k];
    }
  }

  lemma {:induction false} InsertAdds(w: Window, ws: seq<Window>)
    ensures multiset(Insert(w, ws)) == multiset(ws) + multiset{w}
  {
    if ws != [] {
      assert ws == [ws[0]] + ws[1..];
      InsertAdds(w, ws[1..]);
    }
  }

  lemma {:induction false} InsertSorted(w: Window, ws: seq<Window>)
    requires Sorted(ws)
    ensures Sorted(Insert(w, ws))
  {
    if ws != [] && !Before(w, ws[0]) {
      var rest := Insert(w, ws[1..]);
      InsertSorted(w, ws[1..]);
      InsertAdds(w, ws[1..]);
      forall j | 0 <= j < |rest| ensures Before(ws[0], rest[j]) {
        assert rest[j] in multiset(rest);
      }
    }
  }

  lemma {:induction false} SortSorts(ws: seq<Window>)
    ensures Sorted(Sort(ws)) && multiset(Sort(ws)) == multiset(ws)
  {
    if ws != [] {
      SortSorts(ws[1..]);
      InsertSorted(ws[0], Sort(ws[1..]));
      InsertAdds(ws[0], Sort(ws[1..]));
      assert ws == [ws[0]] + ws[1..];
    }
  }

  // ---- the sweep is the complement ----------------------------------------

  /** The windows the reader hands over: sorted, clamped, and proper unless they start after the duration. */
  predicate Clean(ws: seq<Window>, duration: real) {
    && Sorted(ws)
    && forall k :: 0 <= k < |ws| ==>
         0.0 <= ws[k].0 <= duration + SLACK && ws[k].1 <= duration && (ws[k].0 <= ws[k].1 || ws[k].1 == duration)
  }

  predicate StartInside(ws: seq<Window>, duration: real) {
    forall k :: 0 <= k < |ws| ==> ws[k].0 <= duration
  }

  predicate Within(ws: seq<Window>, lo: real, hi: real) {
    forall k :: 0 <= k < |ws| ==> lo <= ws[k].0 && ws[k].1 <= hi
  }

  lemma {:induction false} TailClean(ws: seq<Window>, duration: real)
    requires ws != [] && Clean(ws, duration)
    ensures Clean(ws[1..], duration) && (StartInside(ws, duration) ==> StartInside(ws[1..], duration))
    ensures forall k :: 0 <= k < |ws[1..]| ==> ws[0].0 <= ws[1..][k].0
  {
  }

  /** Windows that start no later than the duration give ascending, disjoint pieces inside [cursor, duration]. */
  lemma {:induction false} SweepOrder(ws: seq<Window>, cursor: real, duration: real)
    requires Clean(ws, duration) && StartInside(ws, duration) && cursor <= duration
    ensures Ascending(Sweep(ws, cursor, duration)) && Within(Sweep(ws, cursor, duration), cursor, duration)
  {
    if ws != [] {
      TailClean(ws, duration);
      SweepOrder(ws[1..], Max(cursor, ws[0].1), duration);
    }
  }

  predicate Overshoots(ws: seq<Window>, duration: real) {
    exists k :: 0 <= k < |ws| && ws[k].1 > duration
  }

  /** Conversely a window that starts after the duration makes a piece reach past it. */
  lemma {:induction false} SweepOvershoots(ws: seq<Window>, cursor: real, duration: real)
    requires Clean(ws, duration) && !StartInside(ws, duration) && cursor <= duration
    ensures Overshoots(Sweep(ws, cursor, duration), duration)
  {
    var out := Sweep(ws, cursor, duration);
    if ws[0].0 > duration {
      assert out[0] == (cursor, ws[0].0);
    } else {
      var j :| 0 <= j < |ws| && ws[j].0 > duration;
      assert ws[1..][j - 1].0 > duration;
      var next := Max(cursor, ws[0].1);
      var rest := Sweep(ws[1..], next, duration);
      TailClean(ws, duration);
      SweepOvershoots(ws[1..], next, duration);
      var k :| 0 <= k < |rest| && rest[k].1 > duration;
      assert out[|out| - |rest| + k] == rest[k];
    }
  }

  lemma {:induction false} SweepStarts(ws: seq<Window>, cursor: real, duration: real)
    ensures forall k :: 0 <= k < |Sweep(ws, cursor, duration)| ==> cursor <= Sweep(ws, cursor, duration)[k].0
  {
    if ws != [] {
      SweepStarts(ws[1..], Max(cursor, ws[0].1), duration);
    }
  }

  // ---- late windows ---------------------------------------------------------

  /** How many windows start after the duration, and by how much in all. */
  function LateStarts(ws: seq<Window>, duration: real): nat {
    if ws == [] then 0 else (if ws[0].0 > duration then 1 else 0) + LateStarts(ws[1..], duration)
  }

  function Lateness(ws: seq<Window>, duration: real): real {
    if ws == [] then 0.0 else Max(0.0, ws[0].0 - duration) + Lateness(ws[1..], duration)
  }

  lemma {:induction false} InsertLate(w: Window, ws: seq<Window>, duration: real)
    ensures LateStarts(Insert(w, ws), duration) == LateStarts([w], duration) + LateStarts(ws, duration)
    ensures Lateness(Insert(w, ws), duration) == Lateness([w], duration) + Lateness(ws, duration)
  {
    assert [w][1..] == [];
    if ws == [] || Before(w, ws[0]) {
      assert ([w] + ws)[1..] == ws;
    } else {
      InsertLate(w, ws[1..], duration);
      assert ([ws[0]] + Insert(w, ws[1..]))[1..] == Insert(w, ws[1..]);
    }
  }

  lemma {:induction false} SortLate(ws: seq<Window>, duration: real)
    ensures LateStarts(Sort(ws), duration) == LateStarts(ws, duration) && Lateness(Sort(ws), duration) == Lateness(ws, duration)
  {
    if ws != [] {
      SortLate(ws[1..], duration);
      InsertLate(ws[0], Sort(ws[1..]), duration);
      assert [ws[0]][1..] == [];
    }
  }

  lemma {:induction false} NoneLate(ws: seq<Window>, duration: real)
    ensures StartInside(ws, duration) <==> LateStarts(ws, duration) == 0
  {
    if ws != [] {
      NoneLate(ws[1..], duration);
      assert StartInside(ws, duration) <==> ws[0].0 <= duration && StartInside(ws[1..], duration) by {
        assert ws == [ws[0]] + ws[1..];
      }
    }
  }

  lemma {:induction false} AscendingFirst(w: Window, rest: seq<Window>)
    requires w.0 < w.1 && forall k :: 0 <= k < |rest| ==> w.1 <= rest[k].0
    ensures Ascending([w] + rest) <==> Ascending(rest)
  {
    var all := [w] + rest;
    assert forall k :: 0 <= k < |rest| ==> rest[k] == all[k + 1];
    if Ascending(all) {
      forall i, j | 0 <= i < j < |rest| ensures rest[i].1 <= rest[j].0 {
        assert all[i + 1].1 <= all[j + 1].0;
      }
    }
  }

  /** The pieces ascend exactly when at most one window is late: each late one makes a piece reach past the duration. */
  lemma {:induction false} SweepAscendsExactly(ws: seq<Window>, cursor: real, duration: real)
    requires Clean(ws, duration) && cursor <= duration
    ensures Ascending(Sweep(ws, cursor, duration)) <==> LateStarts(ws, duration) <= 1
  {
    if ws != [] {
      var next := Max(cursor, ws[0].1);
      var rest := Sweep(ws[1..], next, duration);
      TailClean(ws, duration);
      if ws[0].0 <= duration {
        SweepAscendsExactly(ws[1..], next, duration);
        SweepStarts(ws[1..], next, duration);
        if ws[0].0 > cursor { AscendingFirst((cursor, ws[0].0), rest); } else { assert [] + rest == rest; }
      } else if |ws| == 1 {
        assert Sweep(ws, cursor, duration) == [(cursor, ws[0].0)];
      } else {
        assert ws[1].0 > duration && ws[1..][0] == ws[1];
        assert Sweep(ws, cursor, duration)[0] == (cursor, ws[0].0) && Sweep(ws, cursor, duration)[1] == (duration, ws[1].0);
        assert LateStarts(ws[1..], duration) >= 1;
      }
    }
  }

  lemma {:induction false} NothingBefore(ws: seq<Window>, bound: real, x: real)
    requires (forall k :: 0 <= k < |ws| ==> bound <= ws[k].0) && x < bound
    ensures !Covers(ws, x)
  {
  }

  /** From the cursor on, a point is in some piece exactly when it is in no window. */
  lemma {:induction false} SweepIsComplement(ws: seq<Window>, cursor: real, duration: real, x: real)
    requires Clean(ws, duration) && cursor <= x < duration
    ensures Covers(Sweep(ws, cursor, duration), x) <==> !Covers(ws, x)
  {
    if ws == [] {
      if cursor < duration { assert In(Sweep(ws, cursor, duration)[0], x); }
    } else {
      var head := if ws[0].0 > cursor then [(cursor, ws[0].0)] else [];
      var next := Max(cursor, ws[0].1);
      var rest := Sweep(ws[1..], next, duration);
      TailClean(ws, duration);
      CoversConcat(head, rest, x);
      CoversTail(ws, x);
      assert Covers(head, x) <==> cursor <= x < ws[0].0 by {
        if cursor <= x < ws[0].0 { assert In(head[0], x); }
      }
      if x >= next {
        SweepIsComplement(ws[1..], next, duration, x);
      } else {
        NothingBefore(rest, next, x) by { SweepStarts(ws[1..], next, duration); }
        if x < ws[0].0 {
          NothingBefore(ws[1..], ws[0].0, x);
        }
      }
    }
  }

  // ---- length -------------------------------------------------------------

  /** Two ascending decompositions of the same points have the same length, so a union of windows has one. */
  lemma {:induction false} LengthOfPoints(a: seq<Window>, b: seq<Window>)
    requires Ascending(a) && Ascending(b) && forall x :: Covers(a, x) <==> Covers(b, x)
    ensures Total(a) == Total(b)
    decreases |a| + |b|
  {
    if a == [] || b == [] {
      if a != [] { assert In(a[0], a[0].0) && Covers(a, a[0].0) && !Covers(b, a[0].0); }
      if b != [] { assert In(b[0], b[0].0) && Covers(b, b[0].0) && !Covers(a, b[0].0); }
    } else if a[0].1 <= b[0].1 {
      SplitLonger(a, b);
    } else {
      SplitLonger(b, a);
    }
  }

  /** The windows from a point inside the first one on. */
  function From(ws: seq<Window>, cut: real): seq<Window>
    requires ws != []
  {
    (if cut < ws[0].1 then [(cut, ws[0].1)] else []) + ws[1..]
  }

  lemma {:induction false} FromTotal(ws: seq<Window>, cut: real)
    requires ws != [] && cut <= ws[0].1
    ensures Total(From(ws, cut)) == ws[0].1 - cut + Total(ws[1..])
  {
    if cut < ws[0].1 { assert From(ws, cut)[1..] == ws[1..]; } else { assert From(ws, cut) == ws[1..]; }
  }

  lemma {:induction false} TailAscends(ws: seq<Window>)
    requires Ascending(ws) && ws != []
    ensures Ascending(ws[1..]) && forall k :: 0 <= k < |ws[1..]| ==> ws[0].1 <= ws[1..][k].0
  {
    var rest := ws[1..];
    assert forall k :: 0 <= k < |rest| ==> rest[k] == ws[k + 1];
    forall i, j | 0 <= i < j < |rest| ensures rest[i].1 <= rest[j].0 {
      assert ws[i + 1].1 <= ws[j + 1].0;
    }
  }

  lemma {:induction false} FromAscends(ws: seq<Window>, cut: real)
    requires Ascending(ws) && ws != [] && cut <= ws[0].1
    ensures Ascending(From(ws, cut)) && forall k :: 0 <= k < |From(ws, cut)| ==> cut <= From(ws, cut)[k].0
  {
    TailAscends(ws);
    if cut < ws[0].1 {
      AscendingFirst((cut, ws[0].1), ws[1..]);
      assert forall k :: 0 < k < |From(ws, cut)| ==> From(ws, cut)[k] == ws[1..][k - 1];
    } else {
      assert From(ws, cut) == ws[1..];
    }
  }

  lemma {:induction false} FromCovers(ws: seq<Window>, cut: real, x: real)
    requires Ascending(ws) && ws != [] && ws[0].0 < cut <= ws[0].1
    ensures Covers(From(ws, cut), x) <==> x >= cut && Covers(ws, x)
  {
    FromAscends(ws, cut);
    if x < cut {
      NothingBefore(From(ws, cut), cut, x);
    } else {
      var head := if cut < ws[0].1 then [(cut, ws[0].1)] else [];
      CoversTail(ws, x);
      CoversConcat(head, ws[1..], x);
      if In(ws[0], x) { assert In(head[0], x); }
    }
  }

  lemma {:induction false} SameFirstPoint(a: seq<Window>, b: seq<Window>)
    requires a != [] && b != [] && Ascending(a) && Ascending(b) && forall x :: Covers(a, x) <==> Covers(b, x)
    ensures a[0].0 == b[0].0
  {
    assert In(a[0], a[0].0) && Covers(a, a[0].0);
    assert In(b[0], b[0].0) && Covers(b, b[0].0);
  }

  lemma {:induction false} SplitLonger(a: seq<Window>, b: seq<Window>)
    requires a != [] && b != [] && a[0].1 <= b[0].1
    requires Ascending(a) && Ascending(b) && forall x :: Covers(a, x) <==> Covers(b, x)
    ensures Total(a) == Total(b)
    decreases |a| + |b|, 0
  {
    SameFirstPoint(a, b);
    var cut := a[0].1;
    assert From(a, cut) == a[1..];
    FromAscends(a, cut);
    FromAscends(b, cut);
    FromTotal(b, cut);
    forall x ensures Covers(a[1..], x) <==> Covers(From(b, cut), x) {
      FromCovers(a, cut, x);
      FromCovers(b, cut, x);
    }
    LengthOfPoints(a[1..], From(b, cut));
  }

  /** The windows merged into ascending pieces; [lo, hi) is the piece still open. */
  function Merge(ws: seq<Window>, lo: real, hi: real): seq<Window> {
    if ws == [] then (if lo < hi then [(lo, hi)] else [])
    else if ws[0].0 <= hi then Merge(ws[1..], lo, Max(hi, ws[0].1))
    else (if lo < hi then [(lo, hi)] else []) + Merge(ws[1..], ws[0].0, ws[0].1)
  }

  lemma {:induction false} MergeAscends(ws: seq<Window>, lo: real, hi: real, duration: real)
    requires Clean(ws, duration) && (lo <= hi || hi == duration)
    requires forall k :: 0 <= k < |ws| ==> lo <= ws[k].0
    ensures Ascending(Merge(ws, lo, hi)) && forall k :: 0 <= k < |Merge(ws, lo, hi)| ==> lo <= Merge(ws, lo, hi)[k].0
  {
    if ws != [] {
      TailClean(ws, duration);
      if ws[0].0 <= hi {
        MergeAscends(ws[1..], lo, Max(hi, ws[0].1), duration);
      } else {
        var rest := Merge(ws[1..], ws[0].0, ws[0].1);
        MergeAscends(ws[1..], ws[0].0, ws[0].1, duration);
        if lo < hi { AscendingFirst((lo, hi), rest); } else { assert [] + rest == rest; }
      }
    }
  }

  lemma {:induction false} MergeCovers(ws: seq<Window>, lo: real, hi: real, duration: real, x: real)
    requires Clean(ws, duration) && (lo <= hi || hi == duration)
    requires forall k :: 0 <= k < |ws| ==> lo <= ws[k].0
    ensures Covers(Merge(ws, lo, hi), x) <==> lo <= x < hi || Covers(ws, x)
  {
    var head := if lo < hi then [(lo, hi)] else [];
    assert Covers(head, x) <==> lo <= x < hi by {
      if lo <= x < hi { assert In(head[0], x); }
    }
    if ws != [] {
      TailClean(ws, duration);
      CoversTail(ws, x);
      if ws[0].0 <= hi {
        MergeCovers(ws[1..], lo, Max(hi, ws[0].1), duration, x);
      } else {
        MergeCovers(ws[1..], ws[0].0, ws[0].1, duration, x);
        CoversConcat(head, Merge(ws[1..], ws[0].0, ws[0].1), x);
      }
    }
  }

  lemma {:induction false} TotalConcat(a: seq<Window>, b: seq<Window>)
    ensures Total(a + b) == Total(a) + Total(b)
  {
    if a == [] {
      assert a + b == b;
    } else {
      assert (a + b)[1..] == a[1..] + b;
      TotalConcat(a[1..], b);
    }
  }

  lemma {:induction false} LateTile(ws: seq<Window>, lo: real, duration: real)
    requires Clean(ws, duration) && duration < lo && forall k :: 0 <= k < |ws| ==> lo <= ws[k].0
    ensures Total(Sweep(ws, duration, duration)) == Lateness(ws, duration) && Merge(ws, lo, duration) == []
  {
    if ws != [] {
      TailClean(ws, duration);
      LateTile(ws[1..], ws[0].0, duration);
      TotalConcat([(duration, ws[0].0)], Sweep(ws[1..], duration, duration));
    }
  }

  lemma {:induction false} SweepFirst(ws: seq<Window>, cursor: real, duration: real)
    requires ws != []
    ensures Total(Sweep(ws, cursor, duration)) == Max(0.0, ws[0].0 - cursor) + Total(Sweep(ws[1..], Max(cursor, ws[0].1), duration))
  {
    var rest := Sweep(ws[1..], Max(cursor, ws[0].1), duration);
    if ws[0].0 > cursor {
      TotalConcat([(cursor, ws[0].0)], rest);
      assert [(cursor, ws[0].0)][1..] == [];
    } else {
      assert [] + rest == rest;
    }
  }

  lemma {:induction false} MergeFirst(ws: seq<Window>, lo: real, hi: real)
    requires ws != [] && ws[0].0 > hi
    ensures Total(Merge(ws, lo, hi)) == Max(0.0, hi - lo) + Total(Merge(ws[1..], ws[0].0, ws[0].1))
  {
    var head := if lo < hi then [(lo, hi)] else [];
    TotalConcat(head, Merge(ws[1..], ws[0].0, ws[0].1));
    if lo < hi { assert head[1..] == []; }
  }

  lemma {:induction false} SweepAndMergeTile(ws: seq<Window>, lo: real, hi: real, duration: real)
    requires Clean(ws, duration) && lo <= hi <= duration
    requires forall k :: 0 <= k < |ws| ==> lo <= ws[k].0
    ensures Total(Sweep(ws, hi, duration)) + Total(Merge(ws, lo, hi)) == duration - lo + Lateness(ws, duration)
  {
    if ws != [] {
      TailClean(ws, duration);
      SweepFirst(ws, hi, duration);
      if ws[0].0 <= hi {
        SweepAndMergeTile(ws[1..], lo, Max(hi, ws[0].1), duration);
      } else {
        MergeFirst(ws, lo, hi);
        if ws[0].0 <= duration {
          SweepAndMergeTile(ws[1..], ws[0].0, ws[0].1, duration);
        } else {
          LateTile(ws[1..], ws[0].0, duration);
        }
      }
    }
  }

  // ---- the whole function -------------------------------------------------

  lemma {:induction false} ClampedEntries(es: seq<Entry>, duration: real)
    requires forall k :: 0 <= k < |es| ==> Accepted(es[k], duration)
    ensures forall w <- Clamped(es, duration) :: exists k :: 0 <= k < |es| && es[k].Entry? && w == Clamp(es[k], duration)
  {
    if es != [] {
      var front := es[..|es| - 1];
      ClampedEntries(front, duration);
      forall w | w in Clamped(es, duration) ensures exists k :: 0 <= k < |es| && es[k].Entry? && w == Clamp(es[k], duration) {
        if w in Clamped(front, duration) {
          var k :| 0 <= k < |front| && front[k].Entry? && w == Clamp(front[k], duration);
          assert es[k] == front[k];
        }
      }
    }
  }

  lemma {:induction false} SameMembers(a: seq<Window>, b: seq<Window>, w: Window)
    requires multiset(a) == multiset(b)
    ensures w in a <==> w in b
  {
    assert w in a <==> w in multiset(a);
    assert w in b <==> w in multiset(b);
  }

  lemma {:induction false} ReadIsClean(es: seq<Entry>, duration: real)
    requires duration >= 0.0 && Read(Some(es), duration).Ok?
    ensures Clean(Read(Some(es), duration).value, duration)
    ensures multiset(Read(Some(es), duration).value) == multiset(Clamped(es, duration))
  {
    var ws := Read(Some(es), duration).value;
    ClampedEntries(es, duration);
    SortSorts(Clamped(es, duration));
    forall w ensures w in ws <==> w in Clamped(es, duration) {
      SameMembers(ws, Clamped(es, duration), w);
    }
    assert forall k :: 0 <= k < |ws| ==> ws[k] in Clamped(es, duration);
  }

  lemma {:induction false} SamePoints(a: seq<Window>, b: seq<Window>, x: real)
    requires multiset(a) == multiset(b)
    ensures Covers(a, x) ==> Covers(b, x)
  {
    if Covers(a, x) {
      var k :| 0 <= k < |a| && In(a[k], x);
      assert a[k] in multiset(b);
      var j :| 0 <= j < |b| && b[j] == a[k];
      assert In(b[j], x);
    }
  }

  lemma {:induction false} ReadPoints(es: seq<Entry>, duration: real, x: real)
    requires duration >= 0.0 && Read(Some(es), duration).Ok?
    ensures Covers(Read(Some(es), duration).value, x) <==> Covers(Clamped(es, duration), x)
  {
    ReadIsClean(es, duration);
    SamePoints(Read(Some(es), duration).value, Clamped(es, duration), x);
    SamePoints(Clamped(es, duration), Read(Some(es), duration).value, x);
  }

  /** Sweep and u together are as long as the duration and what late windows add to it. */
  lemma {:induction false} SweepLength(es: seq<Entry>, duration: real, u: seq<Window>)
    requires duration >= 0.0 && Read(Some(es), duration).Ok?
    requires Ascending(u) && forall x :: Covers(u, x) <==> Covers(Clamped(es, duration), x)
    ensures Total(Sweep(Read(Some(es), duration).value, 0.0, duration)) + Total(u) == duration + Lateness(Clamped(es, duration), duration)
  {
    var ws := Read(Some(es), duration).value;
    ReadIsClean(es, duration);
    SortLate(Clamped(es, duration), duration);
    MergeAscends(ws, 0.0, 0.0, duration);
    forall x ensures Covers(Merge(ws, 0.0, 0.0), x) <==> Covers(u, x) {
      MergeCovers(ws, 0.0, 0.0, duration, x);
      ReadPoints(es, duration, x);
    }
    LengthOfPoints(Merge(ws, 0.0, 0.0), u);
    SweepAndMergeTile(ws, 0.0, 0.0, duration);
  }

  /** The pieces of any accepted annotation, before short ones are dropped, cover exactly the points of
      [0, duration) that none of its windows covers. Ends are clamped but starts are not: the pieces stay inside
      exactly when no window starts after the duration, and are ascending and disjoint exactly when at most one
      does; their length is what is left of the duration by any decomposition u of the invalid points, and what
      those windows start late by. */
  lemma {:induction false} SweepIsExactComplement(es: seq<Entry>, duration: real, u: seq<Window>)
    requires duration >= 0.0 && Read(Some(es), duration).Ok?
    requires Ascending(u) && forall x :: Covers(u, x) <==> Covers(Clamped(es, duration), x)
    ensures var pieces, windows := Sweep(Read(Some(es), duration).value, 0.0, duration), Clamped(es, duration);
            && (forall x :: 0.0 <= x < duration ==> (Covers(pieces, x) <==> !Covers(windows, x)))
            && (Within(pieces, 0.0, duration) <==> LateStarts(windows, duration) == 0)
            && (Ascending(pieces) <==> LateStarts(windows, duration) <= 1)
            && Total(pieces) + Total(u) == duration + Lateness(windows, duration)
  {
    var ws := Read(Some(es), duration).value;
    ReadIsClean(es, duration);
    SweepLength(es, duration, u);
    SortLate(Clamped(es, duration), duration);
    NoneLate(ws, duration);
    SweepAscendsExactly(ws, 0.0, duration);
    forall x | 0.0 <= x < duration ensures Covers(Sweep(ws, 0.0, duration), x) <==> !Covers(Clamped(es, duration), x) {
      SweepIsComplement(ws, 0.0, duration, x);
      ReadPoints(es, duration, x);
    }
    if StartInside(ws, duration) { SweepOrder(ws, 0.0, duration); } else { SweepOvershoots(ws, 0.0, duration); }
  }

  predicate Sane(ws: seq<Window>, lo: real, hi: real) {
    Ascending(ws) && Within(ws, lo, hi) && forall k :: 0 <= k < |ws| ==> Long(ws[k])
  }

  /** The piece emitted before a bound, if any. */
  function Gap(cursor: real, bound: real): seq<Window> {
    if bound > cursor then [(cursor, bound)] else []
  }

  lemma {:induction false} KeepOne(ws: seq<Window>)
    requires |ws| <= 1
    ensures Keep(ws) == if ws != [] && Long(ws[0]) then ws else []
  {
  }

  lemma {:induction false} KeptGap(cursor: real, bound: real)
    ensures Sane(Keep(Gap(cursor, bound)), cursor, Max(cursor, bound))
  {
    KeepOne(Gap(cursor, bound));
  }

  lemma {:induction false} KeepConcat(a: seq<Window>, b: seq<Window>)
    ensures Keep(a + b) == Keep(a) + Keep(b)
  {
    if a == [] {
      assert a + b == b;
    } else {
      var all := a + b;
      assert all[0] == a[0] && all[1..] == a[1..] + b;
      KeepConcat(a[1..], b);
      Associates(if Long(a[0]) then [a[0]] else [], Keep(a[1..]), Keep(b));
    }
  }

  lemma {:induction false} SaneConcat(a: seq<Window>, b: seq<Window>, lo: real, x: real, y: real, hi: real)
    requires Sane(a, lo, x) && Sane(b, y, hi) && lo <= y && x <= y && x <= hi
    ensures Sane(a + b, lo, hi)
  {
  }

  lemma {:induction false} NoneLong(ws: seq<Window>, duration: real)
    requires Clean(ws, duration)
    requires forall k :: 0 <= k < |ws| ==> ws[k].0 > duration
    ensures Keep(Sweep(ws, duration, duration)) == []
  {
    if ws != [] {
      TailClean(ws, duration);
      NoneLong(ws[1..], duration);
      assert Sweep(ws, duration, duration)[1..] == Sweep(ws[1..], duration, duration);
    }
  }

  lemma {:induction false} KeptPieces(ws: seq<Window>, cursor: real, duration: real)
    requires Clean(ws, duration) && cursor <= duration
    ensures Sane(Keep(Sweep(ws, cursor, duration)), cursor, duration + SLACK)
  {
    if ws == [] {
      KeptGap(cursor, duration);
      assert Sweep(ws, cursor, duration) == Gap(cursor, duration);
    } else {
      var next := Max(cursor, ws[0].1);
      var rest := Sweep(ws[1..], next, duration);
      TailClean(ws, duration);
      assert Sweep(ws, cursor, duration) == Gap(cursor, ws[0].0) + rest;
      KeepConcat(Gap(cursor, ws[0].0), rest);
      KeptGap(cursor, ws[0].0);
      if ws[0].0 > duration {
        NoneLong(ws[1..], duration);
        assert Keep(Gap(cursor, ws[0].0)) + [] == Keep(Gap(cursor, ws[0].0));
      } else {
        KeptPieces(ws[1..], next, duration);
        SaneConcat(Keep(Gap(cursor, ws[0].0)), Keep(rest), cursor, Max(cursor, ws[0].0), next, duration + SLACK);
      }
    }
  }

  /** For every annotation that is not rejected the returned segments are ascending and disjoint, longer than
      the slack, and end at most the slack after the duration, wherever its windows start. */
  lemma {:induction false} SegmentsAlwaysSane(value: Option<seq<Entry>>, duration: real)
    requires duration >= 0.0 && ValidSegments(value, duration).Ok?
    ensures Sane(ValidSegments(value, duration).value, 0.0, duration + SLACK)
  {
    if value.Some? {
      ReadIsClean(value.value, duration);
    }
    KeptPieces(Read(value, duration).value, 0.0, duration);
  }
}
