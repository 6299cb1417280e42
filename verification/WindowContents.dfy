/** Which stretches of a clip are returned, in the fields of the annotated entries. */
module WindowContents {
  import opened Results
  import opened InvalidWindows

  /** When an entry starts: start_sec, or else start, or else at 0. */
  predicate Starts(e: Entry, t: real) {
    e.Entry? && if e.startSec.Some? then t == e.startSec.value else if e.start.Some? then t == e.start.value else t == 0.0
  }

  /** When an entry ends: end_sec, or else end, or else where it starts. */
  predicate Ends(e: Entry, t: real) {
    e.Entry? && if e.endSec.Some? then t == e.endSec.value else if e.end.Some? then t == e.end.value else Starts(e, t)
  }

  /** What is no list has no entries. */
  function Entries(value: Option<seq<Entry>>): seq<Entry> { if value.Some? then value.value else [] }

  /** An annotation is rejected exactly when one of its entries starts before 0, ends before it starts, or ends more
      than 0.03 seconds after the clip. */
  lemma {:induction false} RejectedExactly(value: Option<seq<Entry>>, duration: real)
    ensures ValidSegments(value, duration).Err? <==>
            exists e <- Entries(value), s, t :: Starts(e, s) && Ends(e, t) && (s < 0.0 || t < s || t > duration + 0.03)
  {
    var es := Entries(value);
    if k :| 0 <= k < |es| && !Accepted(es[k], duration) {
      assert Starts(es[k], StartOf(es[k])) && Ends(es[k], EndOf(es[k]));
    }
  }

  // ---- pieces -------------------------------------------------------------

  predicate EndsAt(ws: seq<Window>, a: real) { exists w <- ws :: w.1 == a }

  predicate StartsAt(ws: seq<Window>, b: real) { exists w <- ws :: w.0 == b }

  predicate Apart(ws: seq<Window>, a: real, b: real) { forall w <- ws :: w.1 <= a || b <= w.0 }

  predicate Piece(ws: seq<Window>, cursor: real, duration: real, a: real, b: real) {
    && cursor <= a && (a == cursor || EndsAt(ws, a))
    && ((b == duration && StartInside(ws, duration)) || StartsAt(ws, b))
    && Apart(ws, a, b)
  }

  lemma {:induction false} WithFirst(ws: seq<Window>, duration: real, a: real, b: real)
    requires ws != []
    ensures EndsAt(ws, a) <==> ws[0].1 == a || EndsAt(ws[1..], a)
    ensures StartsAt(ws, b) <==> ws[0].0 == b || StartsAt(ws[1..], b)
    ensures Apart(ws, a, b) <==> (ws[0].1 <= a || b <= ws[0].0) && Apart(ws[1..], a, b)
    ensures StartInside(ws, duration) <==> ws[0].0 <= duration && StartInside(ws[1..], duration)
  {
    var rest := ws[1..];
    assert ws == [ws[0]] + rest;
    assert forall w :: w in ws <==> w == ws[0] || w in rest;
    assert forall k :: 0 <= k < |rest| ==> rest[k] == ws[k + 1];
  }

  /** Windows after a late one start late. */
  lemma {:induction false} LateStays(ws: seq<Window>, duration: real)
    requires ws != [] && Clean(ws, duration) && ws[0].0 > duration
    ensures StartInside(ws[1..], duration) ==> ws[1..] == []
  {
    assert |ws| > 1 ==> ws[1..][0] == ws[1];
  }

  /** The first piece is the one before the first window. */
  lemma {:induction false} FirstPiece(ws: seq<Window>, cursor: real, duration: real, a: real, b: real)
    requires ws != [] && Clean(ws, duration) && cursor <= duration && b - a > SLACK && b <= ws[0].0
    ensures Piece(ws, cursor, duration, a, b) <==> a == cursor && b == ws[0].0
  {
    assert ws[0] in ws;
    assert forall w <- ws :: ws[0].0 <= w.0;
    assert forall w <- ws :: w.1 == duration || ws[0].0 <= w.1;
  }

  /** Later pieces are those of the windows after the first. */
  lemma {:induction false} LaterPieces(ws: seq<Window>, cursor: real, duration: real, a: real, b: real)
    requires ws != [] && Clean(ws, duration) && cursor <= duration && b - a > SLACK && b > ws[0].0
    ensures Piece(ws, cursor, duration, a, b) <==> Piece(ws[1..], Max(cursor, ws[0].1), duration, a, b)
  {
    WithFirst(ws, duration, a, b);
    if ws[0].0 > duration { LateStays(ws, duration); }
  }

  /** No piece as long as this one ends before the windows to come start. */
  lemma {:induction false} LongPiecesAfter(ws: seq<Window>, next: real, duration: real, a: real, b: real)
    requires ws != [] && Clean(ws, duration) && next <= duration && ws[0].1 <= next && b - a > SLACK && b <= ws[0].0
    ensures (a, b) !in Sweep(ws[1..], next, duration)
  {
    TailClean(ws, duration);
    SweepStarts(ws[1..], next, duration);
    var pieces := Sweep(ws[1..], next, duration);
    forall k | 0 <= k < |pieces| ensures pieces[k] != (a, b) {
      assert next <= pieces[k].0;
    }
  }

  lemma {:induction false} PiecesExactly(ws: seq<Window>, cursor: real, duration: real, a: real, b: real)
    requires Clean(ws, duration) && cursor <= duration && b - a > SLACK
    ensures (a, b) in Sweep(ws, cursor, duration) <==> Piece(ws, cursor, duration, a, b)
  {
    if ws != [] {
      var next := Max(cursor, ws[0].1);
      TailClean(ws, duration);
      if b > ws[0].0 {
        PiecesExactly(ws[1..], next, duration, a, b);
        LaterPieces(ws, cursor, duration, a, b);
      } else {
        FirstPiece(ws, cursor, duration, a, b);
        LongPiecesAfter(ws, next, duration, a, b);
      }
    }
  }

  lemma {:induction false} KeptHas(ws: seq<Window>, w: Window)
    ensures w in Keep(ws) <==> w in ws && w.1 - w.0 > 0.03
  {
    if ws != [] {
      KeptHas(ws[1..], w);
      assert ws == [ws[0]] + ws[1..];
    }
  }

  // ---- windows and entries ------------------------------------------------

  lemma {:induction false} ClampedHas(es: seq<Entry>, duration: real, w: Window)
    ensures w in Clamped(es, duration) <==> exists e <- es :: e.Entry? && w == Clamp(e, duration)
  {
    if es != [] {
      ClampedHas(es[..|es| - 1], duration, w);
      assert es == es[..|es| - 1] + [es[|es| - 1]];
    }
  }

  predicate SomeEnds(es: seq<Entry>, t: real) { exists e <- es :: Ends(e, t) }

  predicate SomeStarts(es: seq<Entry>, t: real) { exists e <- es :: Starts(e, t) }

  ghost predicate NoneLater(es: seq<Entry>, t: real) { forall e <- es, s :: Starts(e, s) ==> s <= t }

  ghost predicate NoneBetween(es: seq<Entry>, a: real, b: real) {
    forall e <- es, s, t :: Starts(e, s) && Ends(e, t) ==> t <= a || b <= s
  }

  lemma {:induction false} EntryIs(e: Entry)
    requires e.Entry?
    ensures forall t :: Starts(e, t) <==> t == StartOf(e)
    ensures forall t :: Ends(e, t) <==> t == EndOf(e)
  {
  }

  lemma {:induction false} AcceptedOne(es: seq<Entry>, duration: real, e: Entry)
    requires Read(Some(es), duration).Ok? && e in es
    ensures Accepted(e, duration)
  {
    var k :| 0 <= k < |es| && es[k] == e;
  }

  /** Each window is read from an entry. */
  lemma {:induction false} OfWindow(es: seq<Entry>, duration: real, w: Window) returns (e: Entry)
    requires duration >= 0.0 && Read(Some(es), duration).Ok? && w in Read(Some(es), duration).value
    ensures e in es && Starts(e, w.0) && 0.0 <= w.0 <= duration + SLACK
    ensures if w.1 < duration then Ends(e, w.1) else w.1 == duration <= EndOf(e)
  {
    SortSorts(Clamped(es, duration));
    SameMembers(Read(Some(es), duration).value, Clamped(es, duration), w);
    ClampedHas(es, duration, w);
    e :| e in es && e.Entry? && w == Clamp(e, duration);
    AcceptedOne(es, duration, e);
    EntryIs(e);
  }

  /** Each entry is read as a window. */
  lemma {:induction false} OfEntry(es: seq<Entry>, duration: real, e: Entry) returns (w: Window)
    requires duration >= 0.0 && Read(Some(es), duration).Ok? && e in es && e.Entry?
    ensures w in Read(Some(es), duration).value && Starts(e, w.0) && 0.0 <= w.0 <= duration + SLACK
    ensures if w.1 < duration then Ends(e, w.1) else w.1 == duration <= EndOf(e)
  {
    w := Clamp(e, duration);
    SortSorts(Clamped(es, duration));
    SameMembers(Read(Some(es), duration).value, Clamped(es, duration), w);
    ClampedHas(es, duration, w);
    AcceptedOne(es, duration, e);
    EntryIs(e);
  }

  /** The bounds of a long piece of the windows are bounds of entries. */
  lemma {:induction false} StartsAreEntries(es: seq<Entry>, duration: real, b: real)
    requires duration >= 0.0 && Read(Some(es), duration).Ok?
    ensures StartsAt(Read(Some(es), duration).value, b) <==> SomeStarts(es, b)
    ensures SomeStarts(es, b) ==> b <= duration + SLACK
  {
    if StartsAt(Read(Some(es), duration).value, b) {
      var w :| w in Read(Some(es), duration).value && w.0 == b;
      var e := OfWindow(es, duration, w);
    }
    if SomeStarts(es, b) {
      var e :| e in es && Starts(e, b);
      var w := OfEntry(es, duration, e);
    }
  }

  lemma {:induction false} NoneLateExactly(es: seq<Entry>, duration: real)
    requires duration >= 0.0 && Read(Some(es), duration).Ok?
    ensures StartInside(Read(Some(es), duration).value, duration) <==> NoneLater(es, duration)
  {
    var ws := Read(Some(es), duration).value;
    if StartInside(ws, duration) {
      forall e, s | e in es && Starts(e, s) ensures s <= duration {
        var w := OfEntry(es, duration, e);
        var k :| 0 <= k < |ws| && ws[k] == w;
      }
    }
    if NoneLater(es, duration) {
      forall k | 0 <= k < |ws| ensures ws[k].0 <= duration {
        var e := OfWindow(es, duration, ws[k]);
      }
    }
  }

  lemma {:induction false} EndsAreEntries(es: seq<Entry>, duration: real, a: real)
    requires duration >= 0.0 && Read(Some(es), duration).Ok? && a < duration
    ensures EndsAt(Read(Some(es), duration).value, a) <==> SomeEnds(es, a)
  {
    if EndsAt(Read(Some(es), duration).value, a) {
      var w :| w in Read(Some(es), duration).value && w.1 == a;
      var e := OfWindow(es, duration, w);
    }
    if SomeEnds(es, a) {
      var e :| e in es && Ends(e, a);
      var w := OfEntry(es, duration, e);
    }
  }

  lemma {:induction false} ApartIsBetween(es: seq<Entry>, duration: real, a: real, b: real)
    requires duration >= 0.0 && Read(Some(es), duration).Ok? && a < duration
    ensures Apart(Read(Some(es), duration).value, a, b) <==> NoneBetween(es, a, b)
  {
    var ws := Read(Some(es), duration).value;
    if NoneBetween(es, a, b) {
      forall w | w in ws ensures w.1 <= a || b <= w.0 {
        var e := OfWindow(es, duration, w);
        assert Ends(e, EndOf(e)) by { EntryIs(e); }
      }
    }
    if Apart(ws, a, b) {
      forall e, s, t | e in es && Starts(e, s) && Ends(e, t) ensures t <= a || b <= s {
        var w := OfEntry(es, duration, e);
      }
    }
  }

  lemma {:induction false} NeverNegative(es: seq<Entry>, duration: real, a: real)
    requires Read(Some(es), duration).Ok? && SomeEnds(es, a)
    ensures a >= 0.0
  {
  }

  /** A stretch is returned exactly when it is longer than 0.03 seconds, runs from 0 or where an entry ends to where
      an entry starts, or to the end of the clip if none starts after that, and every entry is over before it or starts
      after it. */
  lemma {:induction false} SegmentsExactly(value: Option<seq<Entry>>, duration: real, a: real, b: real)
    requires duration >= 0.0 && ValidSegments(value, duration).Ok?
    ensures var es := Entries(value);
            (a, b) in ValidSegments(value, duration).value <==>
            && b - a > 0.03
            && (a == 0.0 || SomeEnds(es, a))
            && ((b == duration && NoneLater(es, duration)) || SomeStarts(es, b))
            && NoneBetween(es, a, b)
  {
    var es, ws := Entries(value), Read(value, duration).value;
    assert ws == Read(Some(es), duration).value;
    KeptHas(Sweep(ws, 0.0, duration), (a, b));
    StartsAreEntries(es, duration, b);
    NoneLateExactly(es, duration);
    if b - a > SLACK {
      ReadIsClean(es, duration);
      PiecesExactly(ws, 0.0, duration, a, b);
      if a < duration {
        EndsAreEntries(es, duration, a);
        ApartIsBetween(es, duration, a, b);
      }
      if SomeEnds(es, a) { NeverNegative(es, duration, a); }
    }
  }
}
