/** How numbers of finished videos look, and what syncs and imports write, in the fields of the rows. */
module VideoContents {
  import opened Results
  import opened VideoNumbers
  import opened VideoRows
  import Decimal

  // ---- numbers ------------------------------------------------------------

  lemma {:induction false} ZerosAre(n: nat)
    ensures |Zeros(n)| == n && forall c <- Zeros(n) :: c == '0'
  {
    if n > 0 { ZerosAre(n - 1); }
  }

  lemma {:induction false} PrintStarts(n: nat)
    ensures n > 0 ==> Decimal.Print(n)[0] != '0'
  {
    if n >= 10 { PrintStarts(n / 10); }
  }

  /** The text is V- and at least three decimal digits, which stand for n; more than three only if they need to be. */
  predicate IsNumber(text: string, n: nat) {
    && |text| >= 5 && text[..2] == "V-" && Decimal.IsNumeral(text[2..]) && Decimal.Read(text[2..]) == n
    && (|text| > 5 ==> text[2] != '0')
  }

  lemma {:induction false} FormatExactly(n: nat)
    ensures IsNumber(Format(n), n)
  {
    var s := Decimal.Print(n);
    var pad := if |s| < 3 then 3 - |s| else 0;
    ReadZeros(pad, s);
    Decimal.ReadPrint(n);
    ZerosAre(pad);
    PrintStarts(n);
    assert Format(n)[..2] == "V-" && Format(n)[2..] == Zeros(pad) + s;
  }

  /** A stored value has number n: it is V- and decimal digits that stand for n. */
  predicate Has(value: Option<string>, n: nat) {
    value.Some? && "V-" <= value.value && Decimal.IsNumeral(value.value[2..]) && Decimal.Read(value.value[2..]) == n
  }

  lemma {:induction false} HasExactly(v: Option<string>, n: nat)
    ensures Has(v, n) <==> NumberOf(v) == Some(n)
  {
  }

  ghost predicate Largest(values: seq<Option<string>>, n: nat) {
    && (n == 0 || exists v <- values :: Has(v, n))
    && forall v <- values, m: nat :: Has(v, m) ==> m <= n
  }

  lemma {:induction false} MaxIsLargest(values: seq<Option<string>>)
    ensures Largest(values, MaxNumber(values))
  {
    if values != [] {
      var front, last := values[..|values| - 1], values[|values| - 1];
      MaxIsLargest(front);
      assert values == front + [last];
      assert last in values;
      forall n: nat ensures Has(last, n) <==> NumberOf(last) == Some(n) {
        HasExactly(last, n);
      }
      forall v | v in front ensures v in values { }
    }
  }

  /** The next number is one more than the largest there is, and 1 when there is none. */
  lemma {:induction false} NextExactly(values: seq<Option<string>>)
    ensures exists n: nat :: Largest(values, n) && IsNumber(Next(values), n + 1)
  {
    MaxIsLargest(values);
    FormatExactly(MaxNumber(values) + 1);
  }

  // ---- snapshot sync ------------------------------------------------------

  /** The numbers of a case, in the order of its rows. */
  lemma {:induction false} NumbersAre(rows: seq<Row>, c: string, v: Option<string>)
    ensures v in Numbers(rows, c) <==> exists r <- rows :: r.caseId == c && r.number == v
  {
    if rows != [] {
      NumbersAre(rows[1..], c, v);
      assert rows == [rows[0]] + rows[1..];
    }
  }

  /** The largest number of a case, or 0. */
  ghost predicate LargestIn(rows: seq<Row>, c: string, n: nat) {
    && (n == 0 || exists r <- rows :: r.caseId == c && Has(r.number, n))
    && forall r <- rows, m: nat :: r.caseId == c && Has(r.number, m) ==> m <= n
  }

  /** The number a video is given: the one its row has, if that is not empty, or the one after the largest of its case. */
  ghost predicate Numbered(rows: seq<Row>, f: Finished, number: Option<string>) {
    if exists r <- rows :: r.id == f.id && r.number.Some? && r.number != Some("")
    then exists r <- rows :: r.id == f.id && r.number == number && number.Some? && number != Some("")
    else
      && number.Some?
      && exists n: nat :: LargestIn(rows, f.caseId, n) && IsNumber(number.value, n + 1)
  }

  lemma {:induction false} NumberedExactly(rows: seq<Row>, f: Finished)
    requires Unique(rows)
    ensures Numbered(rows, f, SyncedNumber(rows, f))
  {
    FindIs(rows, f.id);
    forall r | r in rows && r.id == f.id ensures Find(rows, f.id) == Some(r) {
      OneRow(rows, r);
    }
    var values := Numbers(rows, f.caseId);
    NextExactly(values);
    var n: nat :| Largest(values, n) && IsNumber(Next(values), n + 1);
    forall r | r in rows && r.caseId == f.caseId ensures r.number in values {
      NumbersAre(rows, f.caseId, r.number);
    }
    if v :| v in values && Has(v, n) { NumbersAre(rows, f.caseId, v); }
    assert LargestIn(rows, f.caseId, n);
  }

  /** The row of a video says its id, the case it is in now and its number; it takes the place of the row the video had
      or comes last. Other rows stay as they are. */
  lemma {:induction false} SyncWrites(rows: seq<Row>, f: Finished)
    requires Unique(rows) && SyncOne(rows, f).Some?
    ensures var after := SyncOne(rows, f).value;
            && |after| == (if HasId(rows, f.id) then |rows| else |rows| + 1)
            && (forall k :: 0 <= k < |rows| && rows[k].id != f.id ==> after[k] == rows[k])
            && forall k :: 0 <= k < |after| && (k == |rows| || rows[k].id == f.id) ==>
                 after[k].id == f.id && after[k].caseId == f.caseId && Numbered(rows, f, after[k].number)
  {
    PutAt(rows, Row(f.id, f.caseId, SyncedNumber(rows, f)));
    NumberedExactly(rows, f);
  }

  // ---- imports ------------------------------------------------------------

  /** The row asks for a number: it is of a video, and the text is not empty. */
  predicate Asks(r: ImportRow, c: string, n: string) { r.Video? && r.caseId == c && r.number == Some(n) && n != "" }

  predicate HasNumber(rows: seq<Row>, c: string, n: string) { exists r <- rows :: r.caseId == c && r.number == Some(n) }

  /** Another row of the case has the number, or an earlier row of the batch asked for it. */
  predicate Refused(rows: seq<Row>, batch: seq<ImportRow>, k: nat)
    requires k < |batch|
  {
    var r := batch[k];
    r.Video? && r.number.Some? && r.number != Some("")
    && (HasNumber(rows, r.caseId, r.number.value) || exists j :: 0 <= j < k && Asks(batch[j], r.caseId, r.number.value))
  }

  /** The k-th result: malformed and refused rows fail, media that are known already are skipped, all else is created.
      A dry run refuses and skips nothing. */
  predicate Comes(rows: seq<Row>, batch: seq<ImportRow>, dry: bool, k: nat, st: Status)
    requires k < |batch|
  {
    if batch[k] == NotObject || batch[k] == MediaWithoutUri || (!dry && Refused(rows, batch, k)) then st == Failed
    else if !dry && batch[k] == Other(true) then st == Skipped
    else st == Created
  }

  lemma {:induction false} AskedEarlier(batch: seq<ImportRow>, k: nat, c: string, n: string)
    requires k <= |batch|
    ensures (c, n) in AskedKeys(batch[..k]) <==> exists j :: 0 <= j < k && Asks(batch[j], c, n)
  {
    if (c, n) in AskedKeys(batch[..k]) {
      var r :| r in batch[..k] && r.Video? && Asked(r).Some? && (r.caseId, Asked(r).value) == (c, n);
      var j :| 0 <= j < k && batch[..k][j] == r;
      assert Asks(batch[j], c, n);
    }
    if j :| 0 <= j < k && Asks(batch[j], c, n) {
      assert batch[..k][j] == batch[j];
    }
  }

  lemma {:induction false} RefusedExactly(rows: seq<Row>, batch: seq<ImportRow>, k: nat)
    requires k < |batch|
    ensures Refused(rows, batch, k) <==>
            batch[k].Video? && Asked(batch[k]).Some? && (batch[k].caseId, Asked(batch[k]).value) in Keys(rows) + AskedKeys(batch[..k])
  {
    if batch[k].Video? && Asked(batch[k]).Some? {
      TakenIsKey(rows, batch[k].caseId, Asked(batch[k]).value);
      AskedEarlier(batch, k, batch[k].caseId, Asked(batch[k]).value);
    }
  }

  lemma {:induction false} LastResult(p: Progress, r: ImportRow, dry: bool)
    ensures var q := ImportOne(p, r, dry);
            |q.results| == |p.results| + 1 && q.results[..|p.results|] == p.results
            && (q.results[|p.results|].status == Skipped <==> !Malformed(r) && !dry && !Conflicts(p, r) && r == Other(true))
  {
  }

  /** Every row of an import has the result it should. */
  lemma {:induction false} ResultsExactly(rows: seq<Row>, nextId: Id, batch: seq<ImportRow>, dry: bool, k: nat)
    requires k < |batch|
    ensures var p := ImportFrom(Begin(rows, nextId), batch, dry);
            |p.results| == |batch| && p.results[k].index == k && Comes(rows, batch, dry, k, p.results[k].status)
    decreases |batch|
  {
    var front, r := batch[..|batch| - 1], batch[|batch| - 1];
    var p := ImportFrom(Begin(rows, nextId), front, dry);
    ReportsAddUp(rows, nextId, batch, dry);
    ReportsAddUp(rows, nextId, front, dry);
    LastResult(p, r, dry);
    RowsFailExactly(rows, nextId, batch, dry, k);
    RefusedExactly(rows, batch, k);
    if k < |front| {
      ResultsExactly(rows, nextId, front, dry, k);
      RefusedExactly(rows, front, k);
      assert front[k] == batch[k] && front[..k] == batch[..k];
    }
  }

  /** How many rows of a batch are objects, which draw an id each. */
  function Objects(batch: seq<ImportRow>): nat {
    if batch == [] then 0 else Objects(batch[..|batch| - 1]) + if batch[|batch| - 1] == NotObject then 0 else 1
  }

  /** The rows an import adds: one for each video that was created, in order, with an id of its own. */
  function Added(nextId: Id, batch: seq<ImportRow>, results: seq<RowResult>): seq<Row>
    requires |results| == |batch|
  {
    if batch == [] then []
    else
      var n := |batch| - 1;
      Added(nextId, batch[..n], results[..n]) +
      if batch[n].Video? && results[n].status == Created
      then [Row(nextId + Objects(batch[..n]), batch[n].caseId, if batch[n].number == Some("") then None else batch[n].number)]
      else []
  }

  lemma {:induction false} LastWrites(p: Progress, r: ImportRow, dry: bool)
    ensures var q := ImportOne(p, r, dry);
            && q.nextId == p.nextId + (if r == NotObject then 0 else 1)
            && |q.results| == |p.results| + 1
            && q.rows == if !dry && r.Video? && q.results[|p.results|].status == Created
                         then p.rows + [Row(p.nextId, r.caseId, if r.number == Some("") then None else r.number)] else p.rows
  {
  }

  /** What an import adds: those rows, after the ones there were; a dry run adds nothing. */
  lemma {:induction false} ImportWrites(rows: seq<Row>, nextId: Id, batch: seq<ImportRow>, dry: bool)
    ensures var p := ImportFrom(Begin(rows, nextId), batch, dry);
            && |p.results| == |batch| && p.nextId == nextId + Objects(batch)
            && p.rows == if dry then rows else rows + Added(nextId, batch, p.results)
  {
    ReportsAddUp(rows, nextId, batch, dry);
    if batch != [] {
      var front, r := batch[..|batch| - 1], batch[|batch| - 1];
      var p := ImportFrom(Begin(rows, nextId), front, dry);
      ImportWrites(rows, nextId, front, dry);
      LastWrites(p, r, dry);
      LastResult(p, r, dry);
    }
  }

  /** Deleting a video removes its row and no other, and the others stay in order. */
  lemma {:induction false} DeleteWrites(rows: seq<Row>, id: Id, k: nat)
    requires Unique(rows) && k < |rows| && rows[k].id == id
    ensures Dropped(rows, id) == rows[..k] + rows[k + 1..]
  {
    if k > 0 {
      RestUnique(rows);
      DeleteWrites(rows[1..], id, k - 1);
      assert rows[..k] == [rows[0]] + rows[1..][..k - 1] && rows[1..][k..] == rows[k + 1..];
    }
  }
}
