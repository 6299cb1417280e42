/** The production repository's finished-video writes. */
module VideoRepository {
  import opened Results
  import opened VideoNumbers
  import opened VideoRows

  datatype Report = Report(created: nat, skipped: nat, failed: nat, complete: bool, results: seq<RowResult>)

  class Repository {
    var rows: seq<Row>
    var nextId: Id

    function State(): Table
      reads this
    {
      Table(rows, nextId)
    }

    constructor ()
      ensures State() == Table([], 0)
    {
      rows, nextId := [], 0;
    }

    method CaseNumbers(c: string) returns (numbers: seq<Option<string>>)
      ensures numbers == Numbers(rows, c)
    {
      numbers := [];
      for n := 0 to |rows|
        invariant numbers + Numbers(rows[n..], c) == Numbers(rows, c)
      {
        assert rows[n..][0] == rows[n] && rows[n..][1..] == rows[n + 1..];
        if rows[n].caseId == c { numbers := numbers + [rows[n].number]; }
      }
    }

    method NumberExists(c: string, number: string) returns (found: bool)
      ensures found == Taken(rows, c, number)
    {
      for n := 0 to |rows|
        invariant forall j :: 0 <= j < n ==> !(rows[j].caseId == c && rows[j].number == Some(number))
      {
        if rows[n].caseId == c && rows[n].number == Some(number) {
          assert rows[n] in rows;
          return true;
        }
      }
      found := false;
    }

    /** One transaction: the first row the constraint rejects rolls all of them back. */
    method SyncSnapshot(videos: seq<Finished>) returns (ok: bool)
      modifies this`rows
      ensures var s := SyncAll(old(rows), videos);
              ok == s.Some? && rows == if ok then s.value else old(rows)
    {
      var before := rows;
      for n := 0 to |videos|
        invariant SyncAll(before, videos) == SyncAll(rows, videos[n..])
      {
        var f := videos[n];
        assert videos[n..][0] == f && videos[n..][1..] == videos[n + 1..];
        var was := Find(rows, f.id);
        var number := if was.Some? then was.value.number else None;
        if !Given(number) {
          var numbers := CaseNumbers(f.caseId);
          var next := NextFinishedVideoNumber(numbers);
          number := Some(next);
        }
        var row := Row(f.id, f.caseId, number);
        if Clashes(rows, row) {
          rows := before;
          return false;
        }
        rows := Put(rows, row);
      }
      ok := true;
    }

    method CreateImportBatch(batch: seq<ImportRow>, dry: bool) returns (report: Report)
      modifies this
      ensures var p := ImportFrom(Begin(old(rows), old(nextId)), batch, dry);
              && rows == p.rows && nextId == p.nextId
              && report == Report(p.created, p.skipped, p.failed, p.failed == 0, p.results)
    {
      var created, skipped, failed, results := 0, 0, 0, [];
      var seen: set<(string, string)> := {};
      for n := 0 to |batch|
        invariant Progress(rows, nextId, seen, created, skipped, failed, results)
                  == ImportFrom(Begin(old(rows), old(nextId)), batch[..n], dry)
        invariant |results| == n
      {
        assert batch[..n + 1][..n] == batch[..n];
        var row := batch[n];
        if row.NotObject? {
          failed, results := failed + 1, results + [RowResult(n, Failed)];
          continue;
        }
        var id := nextId;
        nextId := nextId + 1;
        if row.MediaWithoutUri? {
          failed, results := failed + 1, results + [RowResult(n, Failed)];
          continue;
        }
        var status := Created;
        if !dry {
          if row.Video? {
            var number := Asked(row);
            if number.Some? {
              var taken := NumberExists(row.caseId, number.value);
              if (row.caseId, number.value) in seen || taken {
                failed, results := failed + 1, results + [RowResult(n, Failed)];
                continue;
              }
              seen := seen + {(row.caseId, number.value)};
            }
            rows := rows + [Row(id, row.caseId, number)];
          } else if row.known {
            status := Skipped;
          }
        }
        if status.Skipped? { skipped := skipped + 1; } else { created := created + 1; }
        results := results + [RowResult(n, status)];
      }
      assert batch[..|batch|] == batch;
      report := Report(created, skipped, failed, failed == 0, results);
    }

    method DeleteFinishedVideo(id: Id) returns (found: bool)
      modifies this`rows
      ensures found == HasId(old(rows), id) && rows == Dropped(old(rows), id)
    {
      FindIs(rows, id);
      found := Find(rows, id).Some?;
      if found { rows := Dropped(rows, id); } else { DroppedAbsent(rows, id); }
    }
  }

  lemma {:induction false} DroppedAbsent(rows: seq<Row>, id: Id)
    requires !HasId(rows, id)
    ensures Dropped(rows, id) == rows
  {
    if rows != [] {
      assert rows[0] in rows;
      DroppedAbsent(rows[1..], id);
    }
  }
}
