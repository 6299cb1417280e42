/** Finished-video rows: snapshot sync, imports and deletion. */
module VideoRows {
  import opened Results
  import opened VideoNumbers

  type Id = nat

  datatype Row = Row(id: Id, caseId: string, number: Option<string>)

  /** A finished video as the workflow runtime holds it. */
  datatype Finished = Finished(id: Id, caseId: string)

  /** An empty number is falsy. */
  predicate Given(n: Option<string>) { n.Some? && n.value != "" }

  function Find(rows: seq<Row>, id: Id): Option<Row> {
    if rows == [] then None else if rows[0].id == id then Some(rows[0]) else Find(rows[1..], id)
  }

  function Put(rows: seq<Row>, r: Row): seq<Row> {
    if rows == [] then [r] else if rows[0].id == r.id then [r] + rows[1..] else [rows[0]] + Put(rows[1..], r)
  }

  function Dropped(rows: seq<Row>, id: Id): seq<Row> {
    if rows == [] then [] else if rows[0].id == id then rows[1..] else [rows[0]] + Dropped(rows[1..], id)
  }

  function Numbers(rows: seq<Row>, c: string): seq<Option<string>> {
    if rows == [] then [] else (if rows[0].caseId == c then [rows[0].number] else []) + Numbers(rows[1..], c)
  }

  predicate Taken(rows: seq<Row>, c: string, n: string) {
    exists r <- rows :: r.caseId == c && r.number == Some(n)
  }

  // ---- snapshot sync ------------------------------------------------------

  /** A row keeps the number it has; a row without one gets the next of its case. */
  function SyncedNumber(rows: seq<Row>, f: Finished): Option<string> {
    var was := Find(rows, f.id);
    if was.Some? && Given(was.value.number) then was.value.number else Some(Next(Numbers(rows, f.caseId)))
  }

  /** The unique constraint on case and number. */
  predicate Clashes(rows: seq<Row>, r: Row) {
    r.number.Some? && exists x <- rows :: x.id != r.id && x.caseId == r.caseId && x.number == r.number
  }

  /** None when the constraint rejects the row; the whole transaction is then rolled back. */
  function SyncOne(rows: seq<Row>, f: Finished): Option<seq<Row>> {
    var r := Row(f.id, f.caseId, SyncedNumber(rows, f));
    if Clashes(rows, r) then None else Some(Put(rows, r))
  }

  function SyncAll(rows: seq<Row>, fs: seq<Finished>): Option<seq<Row>>
    decreases |fs|
  {
    if fs == [] then Some(rows)
    else
      var one := SyncOne(rows, fs[0]);
      if one.None? then None else SyncAll(one.value, fs[1..])
  }

  // ---- imports ------------------------------------------------------------

  datatype ImportRow =
    | NotObject
    | MediaWithoutUri
    | Video(caseId: string, number: Option<string>)
    | Other(known: bool)      // a row of another type; known media are skipped

  datatype Status = Created | Skipped | Failed

  datatype RowResult = RowResult(index: nat, status: Status)

  datatype Progress = Progress(
    rows: seq<Row>, nextId: Id, seen: set<(string, string)>, created: nat, skipped: nat, failed: nat, results: seq<RowResult>)

  predicate Malformed(r: ImportRow) { r.NotObject? || r.MediaWithoutUri? }

  function Fail(p: Progress): Progress {
    p.(failed := p.failed + 1, results := p.results + [RowResult(|p.results|, Failed)])
  }

  function Create(p: Progress): Progress {
    p.(created := p.created + 1, results := p.results + [RowResult(|p.results|, Created)])
  }

  /** An import row asks for a number by its trimmed text; an empty one is none at all. */
  function Asked(r: ImportRow): Option<string>
    requires r.Video?
  {
    if Given(r.number) then r.number else None
  }

  predicate Conflicts(p: Progress, r: ImportRow) {
    r.Video? && Asked(r).Some? && ((r.caseId, Asked(r).value) in p.seen || Taken(p.rows, r.caseId, Asked(r).value))
  }

  /** The row an object row adds, under an id of its own. */
  function WithRow(p: Progress, r: ImportRow): Progress {
    if !r.Video? then p
    else
      p.(rows := p.rows + [Row(p.nextId, r.caseId, Asked(r))],
         seen := if Asked(r).Some? then p.seen + {(r.caseId, Asked(r).value)} else p.seen)
  }

  function ImportOne(p: Progress, r: ImportRow, dry: bool): Progress {
    if Malformed(r) then Fail(if r.NotObject? then p else p.(nextId := p.nextId + 1))
    else if dry then Create(p.(nextId := p.nextId + 1))
    else if Conflicts(p, r) then Fail(p.(nextId := p.nextId + 1))
    else if r.Other? && r.known then
      p.(nextId := p.nextId + 1, skipped := p.skipped + 1, results := p.results + [RowResult(|p.results|, Skipped)])
    else Create(WithRow(p, r).(nextId := p.nextId + 1))
  }

  function ImportFrom(p: Progress, batch: seq<ImportRow>, dry: bool): Progress {
    if batch == [] then p else ImportOne(ImportFrom(p, batch[..|batch| - 1], dry), batch[|batch| - 1], dry)
  }

  function Begin(rows: seq<Row>, nextId: Id): Progress { Progress(rows, nextId, {}, 0, 0, 0, []) }

  // ---- histories ----------------------------------------------------------

  datatype Table = Table(rows: seq<Row>, nextId: Id)

  datatype Event =
    | NewVideo                                  // the runtime draws the id of a finished video
    | Sync(videos: seq<Finished>)
    | Import(batch: seq<ImportRow>, dry: bool)
    | Delete(id: Id)

  function Step(t: Table, e: Event): Table {
    match e
    case NewVideo => t.(nextId := t.nextId + 1)
    case Sync(vs) =>
      var s := SyncAll(t.rows, vs);
      if s.Some? && forall f <- vs :: f.id < t.nextId then t.(rows := s.value) else t
    case Import(batch, dry) =>
      var p := ImportFrom(Begin(t.rows, t.nextId), batch, dry);
      Table(p.rows, p.nextId)
    case Delete(id) => t.(rows := Dropped(t.rows, id))
  }

  function Run(t: Table, es: seq<Event>): Table {
    if es == [] then t else Step(Run(t, es[..|es| - 1]), es[|es| - 1])
  }

  // ---- the invariant ------------------------------------------------------

  /** One row per id, one row per number of a case, and ids drawn before next. */
  predicate Unique(rows: seq<Row>) {
    forall j, k :: 0 <= j < k < |rows| ==>
      && rows[j].id != rows[k].id
      && !(rows[j].caseId == rows[k].caseId && rows[j].number.Some? && rows[j].number == rows[k].number)
  }

  predicate Inv(t: Table) {
    Unique(t.rows) && forall r <- t.rows :: r.id < t.nextId
  }

  /** Rows that are still there keep the number they had. */
  predicate NumbersKept(rows: seq<Row>, after: seq<Row>) {
    forall r, s :: r in rows && s in after && s.id == r.id && Given(r.number) ==> s.number == r.number
  }

  predicate HasId(rows: seq<Row>, id: Id) { exists r <- rows :: r.id == id }

  lemma {:induction false} FindIs(rows: seq<Row>, id: Id)
    ensures var f := Find(rows, id); if f.Some? then f.value in rows && f.value.id == id else !HasId(rows, id)
  {
    if rows != [] { FindIs(rows[1..], id); }
  }

  lemma {:induction false} PutAt(rows: seq<Row>, r: Row)
    requires Unique(rows)
    ensures var p := Put(rows, r);
            && |p| == (if HasId(rows, r.id) then |rows| else |rows| + 1)
            && (forall k :: 0 <= k < |rows| ==> p[k] == if rows[k].id == r.id then r else rows[k])
            && (!HasId(rows, r.id) ==> p[|rows|] == r)
  {
    if rows != [] && rows[0].id != r.id {
      PutAt(rows[1..], r);
      assert HasId(rows, r.id) <==> HasId(rows[1..], r.id);
    } else if rows != [] {
      assert rows[0] in rows;
    }
  }

  lemma {:induction false} NumbersHas(rows: seq<Row>, c: string, r: Row)
    requires r in rows && r.caseId == c
    ensures r.number in Numbers(rows, c)
  {
    if rows[0] != r { NumbersHas(rows[1..], c, r); }
  }

  /** The video has a number that another row of the case it is in now has too. */
  predicate MovedOntoTaken(rows: seq<Row>, f: Finished) {
    var was := Find(rows, f.id);
    was.Some? && Given(was.value.number) && exists x <- rows :: x.id != f.id && x.caseId == f.caseId && x.number == was.value.number
  }

  /** A fresh number never clashes, so only a video that moved to another case can. */
  lemma {:induction false} OneClashesExactly(rows: seq<Row>, f: Finished)
    ensures SyncOne(rows, f).None? <==> MovedOntoTaken(rows, f)
  {
    NextIsNew(Numbers(rows, f.caseId));
    forall x | x in rows && x.caseId == f.caseId ensures x.number in Numbers(rows, f.caseId) {
      NumbersHas(rows, f.caseId, x);
    }
  }

  lemma {:induction false} SyncNext(rows: seq<Row>, fs: seq<Finished>, f: Finished)
    ensures SyncAll(rows, fs + [f]) == var s := SyncAll(rows, fs); if s.None? then None else SyncOne(s.value, f)
    decreases |fs|
  {
    if fs == [] {
      assert [] + [f] == [f] && [f][1..] == [];
    } else {
      assert (fs + [f])[0] == fs[0] && (fs + [f])[1..] == fs[1..] + [f];
      var one := SyncOne(rows, fs[0]);
      if one.Some? { SyncNext(one.value, fs[1..], f); }
    }
  }

  /** The k-th video of the sync is the first that clashes, on the rows reached by then. */
  predicate ClashesAt(rows: seq<Row>, fs: seq<Finished>, k: nat)
    requires k < |fs|
  {
    var s := SyncAll(rows, fs[..k]);
    s.Some? && MovedOntoTaken(s.value, fs[k])
  }

  lemma {:induction false} ClashInFront(rows: seq<Row>, fs: seq<Finished>, f: Finished, k: nat)
    requires k < |fs|
    ensures ClashesAt(rows, fs + [f], k) <==> ClashesAt(rows, fs, k)
  {
    assert (fs + [f])[..k] == fs[..k] && (fs + [f])[k] == fs[k];
  }

  /** A sync is rolled back exactly when some video clashes on the rows reached by then. */
  lemma {:induction false} SyncClashesExactly(rows: seq<Row>, fs: seq<Finished>)
    ensures SyncAll(rows, fs).None? <==> exists k :: 0 <= k < |fs| && ClashesAt(rows, fs, k)
  {
    if fs != [] {
      var n := |fs| - 1;
      var front, last := fs[..n], fs[n];
      assert fs == front + [last];
      SyncClashesExactly(rows, front);
      SyncNext(rows, front, last);
      forall k | 0 <= k < n ensures ClashesAt(rows, fs, k) <==> ClashesAt(rows, front, k) {
        ClashInFront(rows, front, last, k);
      }
      if SyncAll(rows, front).Some? {
        OneClashesExactly(SyncAll(rows, front).value, last);
        assert ClashesAt(rows, fs, n) <==> SyncAll(rows, fs).None?;
      } else {
        var k :| 0 <= k < n && ClashesAt(rows, front, k);
        assert ClashesAt(rows, fs, k);
      }
    }
  }

  lemma {:induction false} PutUnique(rows: seq<Row>, r: Row)
    requires Unique(rows) && !Clashes(rows, r)
    ensures Unique(Put(rows, r))
  {
    PutAt(rows, r);
    var s := Put(rows, r);
    forall j, k | 0 <= j < k < |s|
      ensures s[j].id != s[k].id && !(s[j].caseId == s[k].caseId && s[j].number.Some? && s[j].number == s[k].number)
    {
      if k < |rows| { assert rows[j] in rows && rows[k] in rows; } else { assert rows[j] in rows; }
    }
  }

  /** Only r's own row changes, and no id is lost. */
  lemma {:induction false} PutChanges(rows: seq<Row>, r: Row)
    requires Unique(rows)
    ensures forall x <- Put(rows, r) :: x == r || (x in rows && x.id != r.id)
    ensures forall x <- rows :: HasId(Put(rows, r), x.id)
  {
    PutAt(rows, r);
    var s := Put(rows, r);
    forall x | x in rows ensures HasId(s, x.id) {
      var k :| 0 <= k < |rows| && rows[k] == x;
      assert s[k] in s;
    }
  }

  lemma {:induction false} OneRow(rows: seq<Row>, x: Row)
    requires Unique(rows) && x in rows
    ensures Find(rows, x.id) == Some(x)
  {
    if rows[0] != x {
      var k :| 0 <= k < |rows| && rows[k] == x;
      assert rows[0].id != rows[k].id;
      OneRow(rows[1..], x);
    }
  }

  lemma {:induction false} SyncOneKeeps(rows: seq<Row>, f: Finished)
    requires Unique(rows) && SyncOne(rows, f).Some?
    ensures var s := SyncOne(rows, f).value;
            && Unique(s) && NumbersKept(rows, s) && (forall r <- s :: r.id == f.id || HasId(rows, r.id))
            && (forall r <- rows :: HasId(s, r.id))
  {
    var r := Row(f.id, f.caseId, SyncedNumber(rows, f));
    PutUnique(rows, r);
    PutChanges(rows, r);
    FindIs(rows, f.id);
    forall x, y | x in rows && y in Put(rows, r) && y.id == x.id && Given(x.number) ensures y.number == x.number {
      OneRow(rows, x);
      if y != r { OneRow(rows, y); }
    }
  }

  /** The video is in the case that its row is in, if it has one. */
  predicate InPlace(rows: seq<Row>, f: Finished) { forall r <- rows :: r.id == f.id ==> r.caseId == f.caseId }

  lemma {:induction false} OneSucceedsInPlace(rows: seq<Row>, f: Finished)
    requires Unique(rows) && InPlace(rows, f)
    ensures SyncOne(rows, f).Some?
  {
    OneClashesExactly(rows, f);
    FindIs(rows, f.id);
  }

  /** While no video changes its case, neither against the rows nor within the list, a sync is never rolled back. */
  lemma {:induction false} SyncSucceedsInPlace(rows: seq<Row>, fs: seq<Finished>)
    requires Unique(rows) && (forall f <- fs :: InPlace(rows, f))
    requires forall f, g :: f in fs && g in fs && f.id == g.id ==> f.caseId == g.caseId
    ensures SyncAll(rows, fs).Some?
    decreases |fs|
  {
    if fs != [] {
      assert fs[0] in fs && forall f <- fs[1..] :: f in fs;
      OneSucceedsInPlace(rows, fs[0]);
      SyncOneKeeps(rows, fs[0]);
      var r, one := Row(fs[0].id, fs[0].caseId, SyncedNumber(rows, fs[0])), SyncOne(rows, fs[0]).value;
      PutChanges(rows, r);
      forall f | f in fs[1..] ensures InPlace(one, f) {
        assert InPlace(rows, f);
      }
      SyncSucceedsInPlace(one, fs[1..]);
    }
  }

  lemma {:induction false} KeptOn(a: seq<Row>, b: seq<Row>, c: seq<Row>)
    requires NumbersKept(a, b) && NumbersKept(b, c) && forall r <- a :: HasId(b, r.id)
    ensures NumbersKept(a, c)
  {
    forall r, s | r in a && s in c && s.id == r.id && Given(r.number) ensures s.number == r.number {
      assert HasId(b, r.id);
      var m :| m in b && m.id == r.id;
      assert m.number == r.number;
    }
  }

  lemma {:induction false} SyncKeeps(rows: seq<Row>, fs: seq<Finished>)
    requires Unique(rows) && SyncAll(rows, fs).Some?
    ensures var s := SyncAll(rows, fs).value;
            && Unique(s) && NumbersKept(rows, s) && (forall r <- rows :: HasId(s, r.id))
            && (forall r <- s :: HasId(rows, r.id) || exists f <- fs :: f.id == r.id)
    decreases |fs|
  {
    if fs == [] {
      forall r, s | r in rows && s in rows && s.id == r.id ensures s == r {
        OneRow(rows, r);
        OneRow(rows, s);
      }
    } else {
      var one := SyncOne(rows, fs[0]).value;
      var s := SyncAll(rows, fs).value;
      SyncOneKeeps(rows, fs[0]);
      SyncKeeps(one, fs[1..]);
      KeptOn(rows, one, s);
      forall r | r in rows ensures HasId(s, r.id) {
        var m :| m in one && m.id == r.id;
      }
      forall r | r in s ensures HasId(rows, r.id) || exists f <- fs :: f.id == r.id {
        if HasId(one, r.id) {
          var m :| m in one && m.id == r.id;
          assert m.id == fs[0].id ==> fs[0] in fs;
        }
      }
    }
  }

  // ---- imports ------------------------------------------------------------

  function Keys(rows: seq<Row>): set<(string, string)> {
    set r | r in rows && r.number.Some? :: (r.caseId, r.number.value)
  }

  /** The report adds up, has one result per row in order, and the rows already there are left alone. */
  predicate ReportOk(p: Progress, n: nat) {
    && |p.results| == n && p.created + p.skipped + p.failed == n
    && (forall k :: 0 <= k < n ==> p.results[k].index == k)
  }

  function CountOf(rs: seq<RowResult>, s: Status): nat {
    if rs == [] then 0 else CountOf(rs[..|rs| - 1], s) + if rs[|rs| - 1].status == s then 1 else 0
  }

  lemma {:induction false} CountAppend(rs: seq<RowResult>, r: RowResult, s: Status)
    ensures CountOf(rs + [r], s) == CountOf(rs, s) + if r.status == s then 1 else 0
  {
    assert (rs + [r])[..|rs|] == rs;
  }

  predicate CountsOk(p: Progress) {
    p.created == CountOf(p.results, Created) && p.skipped == CountOf(p.results, Skipped) && p.failed == CountOf(p.results, Failed)
  }

  /** One more result, in step with the counters. */
  lemma {:induction false} ImportOneResult(p: Progress, r: ImportRow, dry: bool)
    ensures var q := ImportOne(p, r, dry);
            exists st: Status :: q.results == p.results + [RowResult(|p.results|, st)]
              && q.created == p.created + (if st.Created? then 1 else 0) && q.skipped == p.skipped + (if st.Skipped? then 1 else 0)
              && q.failed == p.failed + (if st.Failed? then 1 else 0)
              && (st.Failed? <==> Malformed(r) || (!dry && Conflicts(p, r)))
  {
    var q := ImportOne(p, r, dry);
    var last := q.results[|p.results|];
    assert q.results == p.results + [RowResult(|p.results|, last.status)];
  }

  lemma {:induction false} ImportOneCounts(p: Progress, r: ImportRow, dry: bool)
    requires ReportOk(p, |p.results|) && CountsOk(p)
    ensures var q := ImportOne(p, r, dry); ReportOk(q, |p.results| + 1) && CountsOk(q)
  {
    ImportOneResult(p, r, dry);
    var last := ImportOne(p, r, dry).results[|p.results|];
    CountAppend(p.results, last, Created);
    CountAppend(p.results, last, Skipped);
    CountAppend(p.results, last, Failed);
  }

  /** Every import that is not aborted reports created + skipped + failed equal to its rows, one result per row
      in order, and each count is the number of results with that status. */
  lemma {:induction false} ReportsAddUp(rows: seq<Row>, nextId: Id, batch: seq<ImportRow>, dry: bool)
    ensures var p := ImportFrom(Begin(rows, nextId), batch, dry); ReportOk(p, |batch|) && CountsOk(p)
  {
    if batch != [] {
      ReportsAddUp(rows, nextId, batch[..|batch| - 1], dry);
      ImportOneCounts(ImportFrom(Begin(rows, nextId), batch[..|batch| - 1], dry), batch[|batch| - 1], dry);
    }
  }

  predicate Progressing(p: Progress, rows: seq<Row>) {
    && Unique(p.rows) && (forall r <- p.rows :: r.id < p.nextId)
    && |rows| <= |p.rows| && p.rows[..|rows|] == rows
  }

  lemma {:induction false} AppendUnique(rows: seq<Row>, n: Row)
    requires Unique(rows)
    requires forall x <- rows :: x.id != n.id && !(x.caseId == n.caseId && x.number.Some? && x.number == n.number)
    ensures Unique(rows + [n])
  {
  }

  lemma {:induction false} ImportOneKeeps(p: Progress, r: ImportRow, dry: bool, rows: seq<Row>)
    requires Progressing(p, rows)
    ensures Progressing(ImportOne(p, r, dry), rows)
  {
    if r.Video? && !dry && !Conflicts(p, r) {
      var n := Row(p.nextId, r.caseId, Asked(r));
      forall x | x in p.rows ensures x.id != n.id && !(x.caseId == n.caseId && x.number.Some? && x.number == n.number) {
        if x.caseId == n.caseId && x.number.Some? && x.number == n.number { assert Taken(p.rows, r.caseId, Asked(r).value); }
      }
      AppendUnique(p.rows, n);
    }
  }

  lemma {:induction false} ImportKeeps(rows: seq<Row>, nextId: Id, batch: seq<ImportRow>, dry: bool)
    requires Unique(rows) && forall r <- rows :: r.id < nextId
    ensures Progressing(ImportFrom(Begin(rows, nextId), batch, dry), rows)
  {
    if batch != [] {
      ImportKeeps(rows, nextId, batch[..|batch| - 1], dry);
      ImportOneKeeps(ImportFrom(Begin(rows, nextId), batch[..|batch| - 1], dry), batch[|batch| - 1], dry, rows);
    }
  }

  // ---- which rows fail ----------------------------------------------------

  function AskedKeys(batch: seq<ImportRow>): set<(string, string)> {
    set r | r in batch && r.Video? && Asked(r).Some? :: (r.caseId, Asked(r).value)
  }

  /** The numbers taken so far are those of the rows at the start and those asked for since. */
  predicate KeysOk(p: Progress, rows: seq<Row>, done: seq<ImportRow>) {
    Keys(p.rows) == Keys(rows) + AskedKeys(done) && p.seen <= Keys(p.rows)
  }

  lemma {:induction false} TakenIsKey(rows: seq<Row>, c: string, n: string)
    ensures Taken(rows, c, n) <==> (c, n) in Keys(rows)
  {
    if Taken(rows, c, n) {
      var r :| r in rows && r.caseId == c && r.number == Some(n);
      assert (r.caseId, r.number.value) in Keys(rows);
    }
  }

  lemma {:induction false} KeysAppend(rows: seq<Row>, r: Row)
    ensures Keys(rows + [r]) == Keys(rows) + if r.number.Some? then {(r.caseId, r.number.value)} else {}
  {
    forall x | x in rows ensures x in rows + [r] { }
    assert (rows + [r])[|rows|] == r;
  }

  lemma {:induction false} AskedAppend(done: seq<ImportRow>, r: ImportRow)
    ensures AskedKeys(done + [r]) == AskedKeys(done) + if r.Video? && Asked(r).Some? then {(r.caseId, Asked(r).value)} else {}
  {
    forall x | x in done ensures x in done + [r] { }
    assert (done + [r])[|done|] == r;
  }

  lemma {:induction false} ImportOneKeysOk(p: Progress, r: ImportRow, rows: seq<Row>, done: seq<ImportRow>)
    requires KeysOk(p, rows, done)
    ensures KeysOk(ImportOne(p, r, false), rows, done + [r])
  {
    AskedAppend(done, r);
    if r.Video? {
      KeysAppend(p.rows, Row(p.nextId, r.caseId, Asked(r)));
      if Asked(r).Some? { TakenIsKey(p.rows, r.caseId, Asked(r).value); }
    }
  }

  lemma {:induction false} ImportKeysOk(rows: seq<Row>, nextId: Id, batch: seq<ImportRow>)
    ensures KeysOk(ImportFrom(Begin(rows, nextId), batch, false), rows, batch)
  {
    if batch == [] {
      assert AskedKeys(batch) == {};
    } else {
      var front, r := batch[..|batch| - 1], batch[|batch| - 1];
      ImportKeysOk(rows, nextId, front);
      ImportOneKeysOk(ImportFrom(Begin(rows, nextId), front, false), r, rows, front);
      assert front + [r] == batch;
    }
  }

  /** A row fails exactly when it is malformed, or, in a real run, asks for a number its case already has or an
      earlier row of the batch asked for. */
  lemma {:induction false} RowsFailExactly(rows: seq<Row>, nextId: Id, batch: seq<ImportRow>, dry: bool, k: nat)
    requires k < |batch|
    ensures var p := ImportFrom(Begin(rows, nextId), batch, dry);
            |p.results| == |batch|
            && (p.results[k].status == Failed <==>
                || Malformed(batch[k])
                || (!dry && batch[k].Video? && Asked(batch[k]).Some?
                    && (batch[k].caseId, Asked(batch[k]).value) in Keys(rows) + AskedKeys(batch[..k])))
    decreases |batch|
  {
    var front, r := batch[..|batch| - 1], batch[|batch| - 1];
    ReportsAddUp(rows, nextId, front, dry);
    ImportOneResult(ImportFrom(Begin(rows, nextId), front, dry), r, dry);
    if k < |front| {
      RowsFailExactly(rows, nextId, front, dry, k);
      assert front[..k] == batch[..k];
    } else if !dry {
      var p := ImportFrom(Begin(rows, nextId), front, dry);
      ImportKeysOk(rows, nextId, front);
      if r.Video? && Asked(r).Some? { TakenIsKey(p.rows, r.caseId, Asked(r).value); }
      assert batch[..k] == front;
    }
  }

  // ---- all histories ------------------------------------------------------

  lemma {:induction false} DroppedHas(rows: seq<Row>, id: Id)
    requires Unique(rows)
    ensures forall r <- Dropped(rows, id) :: r in rows && r.id != id
    ensures forall r <- rows :: r.id == id || r in Dropped(rows, id)
  {
    if rows != [] && rows[0].id != id { DroppedHas(rows[1..], id); }
  }

  lemma {:induction false} FirstUnique(r: Row, rest: seq<Row>)
    requires Unique(rest)
    requires forall x <- rest :: x.id != r.id && !(x.caseId == r.caseId && x.number.Some? && x.number == r.number)
    ensures Unique([r] + rest)
  {
    var all := [r] + rest;
    forall j, k | 0 <= j < k < |all|
      ensures all[j].id != all[k].id && !(all[j].caseId == all[k].caseId && all[j].number.Some? && all[j].number == all[k].number)
    {
      assert all[k] == rest[k - 1] && rest[k - 1] in rest;
    }
  }

  lemma {:induction false} RestUnique(rows: seq<Row>)
    requires Unique(rows) && rows != []
    ensures Unique(rows[1..])
    ensures forall x <- rows[1..] :: x.id != rows[0].id && !(x.caseId == rows[0].caseId && x.number.Some? && x.number == rows[0].number)
  {
  }

  lemma {:induction false} DroppedUnique(rows: seq<Row>, id: Id)
    requires Unique(rows)
    ensures Unique(Dropped(rows, id))
  {
    if rows != [] {
      RestUnique(rows);
      if rows[0].id != id {
        DroppedUnique(rows[1..], id);
        DroppedHas(rows[1..], id);
        FirstUnique(rows[0], Dropped(rows[1..], id));
      }
    }
  }

  lemma {:induction false} SameKept(rows: seq<Row>)
    requires Unique(rows)
    ensures NumbersKept(rows, rows) && forall r, s :: r in rows && s in rows && r.id == s.id ==> r == s
  {
    forall r, s | r in rows && s in rows && r.id == s.id ensures r == s {
      OneRow(rows, r);
      OneRow(rows, s);
    }
  }

  lemma {:induction false} PrefixKept(rows: seq<Row>, after: seq<Row>)
    requires Unique(after) && |rows| <= |after| && after[..|rows|] == rows
    ensures NumbersKept(rows, after) && forall r <- rows :: HasId(after, r.id)
  {
    SameKept(after);
    forall r | r in rows ensures r in after {
      var k :| 0 <= k < |rows| && rows[k] == r;
      assert after[..|rows|][k] == after[k];
    }
  }

  lemma {:induction false} StepKeeps(t: Table, e: Event)
    requires Inv(t)
    ensures Inv(Step(t, e)) && NumbersKept(t.rows, Step(t, e).rows)
    ensures forall r <- t.rows :: HasId(Step(t, e).rows, r.id) || e == Delete(r.id)
  {
    SameKept(t.rows);
    match e
    case NewVideo =>
    case Sync(vs) => if SyncAll(t.rows, vs).Some? { SyncKeeps(t.rows, vs); }
    case Import(batch, dry) =>
      var p := ImportFrom(Begin(t.rows, t.nextId), batch, dry);
      ImportKeeps(t.rows, t.nextId, batch, dry);
      PrefixKept(t.rows, p.rows);
    case Delete(id) =>
      DroppedHas(t.rows, id);
      DroppedUnique(t.rows, id);
  }

  predicate NeverDeletes(es: seq<Event>, id: Id) { forall e <- es :: e != Delete(id) }

  /** In every history, numbers given to rows of one case differ, and a row that is never deleted keeps the
      number it once had. */
  lemma {:induction false} NumbersAreUniqueAndFinal(t: Table, es: seq<Event>)
    requires Inv(t)
    ensures Inv(Run(t, es))
    ensures forall r <- t.rows :: NeverDeletes(es, r.id) ==>
              HasId(Run(t, es).rows, r.id) && forall s <- Run(t, es).rows :: s.id == r.id && Given(r.number) ==> s.number == r.number
  {
    if es == [] {
      SameKept(t.rows);
    } else {
      var front, e := es[..|es| - 1], es[|es| - 1];
      NumbersAreUniqueAndFinal(t, front);
      var m := Run(t, front);
      StepKeeps(m, e);
      assert e in es && forall x <- front :: x in es;
      forall r | r in t.rows && NeverDeletes(es, r.id)
        ensures HasId(Run(t, es).rows, r.id) && forall s <- Run(t, es).rows :: s.id == r.id && Given(r.number) ==> s.number == r.number
      {
        assert NeverDeletes(front, r.id);
        var x :| x in m.rows && x.id == r.id;
        assert e != Delete(x.id);
      }
    }
  }
}
