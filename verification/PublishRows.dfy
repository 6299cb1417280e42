/** What the publishing transactions write, row by row. */
module PublishRows {
  import opened Results
  import opened Sequences
  import opened PublishStates
  import opened PublishTables
  import opened PublishProtocol
  import opened PublishVerdicts
  import opened PublishingRepository

  // ---- the status edges ---------------------------------------------------

  /** The moves an item may make: the pipeline in order, which can fail or be left at any stage, and from there
      publishing, which can be tried again when it fails. */
  const ITEM_EDGES: set<(ItemStatus, ItemStatus)> := {
    (Uploaded, Normalizing), (Uploaded, Excluded),
    (Normalizing, AsrRunning), (Normalizing, GenerationFailed), (Normalizing, Excluded),
    (AsrRunning, CopyRunning), (AsrRunning, GenerationFailed), (AsrRunning, Excluded),
    (CopyRunning, CoverRunning), (CopyRunning, GenerationFailed), (CopyRunning, Excluded),
    (CoverRunning, ReviewReady), (CoverRunning, ManualReviewReady), (CoverRunning, GenerationFailed), (CoverRunning, Excluded),
    (ReviewReady, Publishing), (ReviewReady, Excluded), (ManualReviewReady, Publishing), (ManualReviewReady, Excluded),
    (Publishing, Published), (Publishing, PublishFailed), (PublishFailed, Publishing), (PublishFailed, Excluded)
  }

  const BATCH_EDGES: set<(BatchStatus, BatchStatus)> := {
    (Draft, Processing), (Processing, InReview), (Processing, Sending), (Processing, PartialFailed), (InReview, Sending),
    (Sending, Completed), (Sending, PartialFailed), (PartialFailed, Sending), (PartialFailed, Completed)
  }

  lemma {:induction false} ItemEdgesExactly(a: ItemStatus, b: ItemStatus)
    ensures ItemMoves(a, b) <==> a == b || (a, b) in ITEM_EDGES
  {
  }

  lemma {:induction false} BatchEdgesExactly(a: BatchStatus, b: BatchStatus)
    ensures BatchMoves(a, b) <==> a == b || (a, b) in BATCH_EDGES
  {
  }

  // ---- the items of a submit ----------------------------------------------

  predicate Earlier(order: seq<Id>, a: Id, b: Id) {
    exists p, q :: 0 <= p < q < |order| && order[p] == a && order[q] == b
  }

  predicate InOrder(order: seq<Id>, ids: seq<Id>) { forall j, k :: 0 <= j < k < |ids| ==> Earlier(order, ids[j], ids[k]) }

  /** ids are the selected items of the batch, as they are listed. */
  ghost predicate Listed(t: Tables, b: Id, ids: seq<Id>) {
    && Distinct(ids)
    && (forall i :: i in ids <==> i in t.items && t.items[i].batch == b && t.items[i].selected)
    && InOrder(t.order, ids)
  }

  lemma {:induction false} EarlierInTail(order: seq<Id>, a: Id, b: Id)
    requires order != [] && Earlier(order[1..], a, b)
    ensures Earlier(order, a, b)
  {
    var p, q :| 0 <= p < q < |order[1..]| && order[1..][p] == a && order[1..][q] == b;
    assert order[p + 1] == a && order[q + 1] == b;
  }

  lemma {:induction false} FirstIsEarlier(order: seq<Id>, b: Id)
    requires order != [] && b in order[1..]
    ensures Earlier(order, order[0], b)
  {
    var q :| 0 <= q < |order[1..]| && order[1..][q] == b;
    assert order[q + 1] == b;
  }

  lemma {:induction false} InOrderOfTail(order: seq<Id>, ids: seq<Id>)
    requires order != [] && InOrder(order[1..], ids)
    ensures InOrder(order, ids)
  {
    forall j, k | 0 <= j < k < |ids| ensures Earlier(order, ids[j], ids[k]) {
      EarlierInTail(order, ids[j], ids[k]);
    }
  }

  lemma {:induction false} InOrderFromFirst(order: seq<Id>, ids: seq<Id>)
    requires order != [] && InOrder(order[1..], ids) && forall i <- ids :: i in order[1..]
    ensures InOrder(order, [order[0]] + ids)
  {
    InOrderOfTail(order, ids);
    var all := [order[0]] + ids;
    forall j, k | 0 <= j < k < |all| ensures Earlier(order, all[j], all[k]) {
      assert all[k] == ids[k - 1] && ids[k - 1] in ids;
      if j == 0 { FirstIsEarlier(order, all[k]); } else { assert all[j] == ids[j - 1]; }
    }
  }

  lemma {:induction false} SelectedInOrder(items: map<Id, Item>, order: seq<Id>, b: Id)
    ensures InOrder(order, Selected(items, order, b))
  {
    if order != [] {
      SelectedInOrder(items, order[1..], b);
      SelectedAreRows(items, order[1..], b);
      InOrderOfTail(order, Selected(items, order[1..], b));
      InOrderFromFirst(order, Selected(items, order[1..], b));
    }
  }

  /** The selected items are those of the batch that are selected, each once, as they are listed. */
  lemma {:induction false} SelectedAreListed(t: Tables, b: Id)
    requires Inv(t)
    ensures Listed(t, b, Selected(t.items, t.order, b))
  {
    SelectedDistinct(t.items, t.order, b);
    SelectedAreRows(t.items, t.order, b);
    SelectedInOrder(t.items, t.order, b);
  }

  // ---- transaction A ------------------------------------------------------

  /** What a submit does not take: an item that is published, being published, failed to generate or excluded. */
  predicate Refused(s: ItemStatus) { s.Published? || s.Publishing? || s.GenerationFailed? || s.Excluded? }

  /** A submit starts exactly when something is selected and none of it is refused; the runner gets all of it, and
      nothing when there is none to call. */
  lemma {:induction false} BeginExactly(t: Tables, s: Submission)
    requires Inv(t) && s.batch in t.batches
    ensures var ids := Selected(t.items, t.order, s.batch);
            && (BeginSubmit(t, s).Ok? <==> ids != [] && forall i <- ids :: i in t.items && !Refused(t.items[i].status))
            && (BeginSubmit(t, s).Ok? ==> BeginSubmit(t, s).value == Some(if s.mode.runner && !s.mode.dryRun then ids else []))
            && (BeginSubmit(t, s).Err? ==> BeginSubmit(t, s).error.InvalidOptions?)
  {
    SelectedAreRows(t.items, t.order, s.batch);
    assert forall st: ItemStatus :: Submittable(st) <==> !Refused(st);
  }

  // ---- transaction B ------------------------------------------------------

  /** The runner reported success for the item. */
  predicate Succeeded(outcomes: map<Id, bool>, i: Id) { i in outcomes && outcomes[i] }

  /** The item's row before and after: a dry run leaves it for review, a runner publishes or fails it, and without
      one it is published; a real submit carries its schedule. */
  predicate RowWritten(mode: Mode, outcomes: map<Id, bool>, i: Id, was: Item, now: Item) {
    && now == was.(status := now.status, scheduledAt := now.scheduledAt)
    && now.scheduledAt == (if mode.schedule.Some? && !mode.dryRun then mode.schedule else was.scheduledAt)
    && (now.status.ReviewReady? || now.status.PublishFailed? || now.status.Published?)
    && (now.status.ReviewReady? <==> mode.dryRun)
    && (now.status.PublishFailed? <==> !mode.dryRun && mode.runner && !Succeeded(outcomes, i))
  }

  /** The attempt that goes with the row: awaiting review, failed with it, or published or scheduled. */
  predicate AttemptWritten(mode: Mode, now: Item, a: Attempt) {
    && (a.status.AwaitingReview? <==> mode.dryRun)
    && (a.status.Failed? <==> now.status.PublishFailed?)
    && (a.status.Scheduled? <==> now.status.Published? && mode.schedule.Some?)
    && (a.status.Delivered? <==> now.status.Published? && mode.schedule.None?)
  }

  /** The publish record that goes with the row. */
  predicate RecordWritten(now: Item, r: Record) {
    && r.batch == now.batch && r.package == now.package && r.platform == now.platform
    && (r.status.RecordPublished? <==> now.status.Published?)
    && (r.status.RecordFailed? <==> now.status.PublishFailed?)
    && (r.status.RecordSubmitted? <==> now.status.ReviewReady?)
  }

  predicate HasCase(t: Tables, item: Item) { item.package in t.packages && t.packages[item.package].hasCase }

  /** The items of ids whose package has a case. */
  function Cased(t: Tables, ids: seq<Id>): seq<Id> {
    if ids == [] then []
    else (if ids[0] in t.items && HasCase(t, t.items[ids[0]]) then [ids[0]] else []) + Cased(t, ids[1..])
  }

  /** The attempts of the listed items, under the ids from n on. */
  function NewAttempts(n: nat, s: Submission, outcomes: map<Id, bool>, ids: seq<Id>): seq<Attempt> {
    seq(|ids|, (k: nat) requires k < |ids| => Attempt(n + k, s.batch, ids[k], AttemptStatusOf(s.mode, Reported(outcomes, ids[k]))))
  }

  lemma {:induction false} AttemptsFirst(n: nat, s: Submission, outcomes: map<Id, bool>, ids: seq<Id>)
    requires ids != []
    ensures NewAttempts(n, s, outcomes, ids) ==
            [Attempt(n, s.batch, ids[0], AttemptStatusOf(s.mode, Reported(outcomes, ids[0])))] + NewAttempts(n + 1, s, outcomes, ids[1..])
  {
  }

  lemma {:induction false} ItemAttempt(t: Tables, s: Submission, outcomes: map<Id, bool>, i: Id)
    requires i in t.items && SubmitItem(t, s, outcomes, i).Ok?
    ensures var t1 := SubmitItem(t, s, outcomes, i).value;
            && t1.packages == t.packages && t1.nextId == t.nextId + 1 && t1.items.Keys == t.items.Keys
            && t1.attempts == t.attempts + [Attempt(t.nextId, s.batch, i, AttemptStatusOf(s.mode, Reported(outcomes, i)))]
  {
  }

  lemma {:induction false} AttemptsJoin(before: seq<Attempt>, n: nat, s: Submission, outcomes: map<Id, bool>, ids: seq<Id>)
    requires ids != []
    ensures before + [Attempt(n, s.batch, ids[0], AttemptStatusOf(s.mode, Reported(outcomes, ids[0])))] + NewAttempts(n + 1, s, outcomes, ids[1..]) ==
            before + NewAttempts(n, s, outcomes, ids)
  {
    AttemptsFirst(n, s, outcomes, ids);
    Associates(before, [Attempt(n, s.batch, ids[0], AttemptStatusOf(s.mode, Reported(outcomes, ids[0])))], NewAttempts(n + 1, s, outcomes, ids[1..]));
  }

  lemma {:induction false} ItemsAttempts(t: Tables, s: Submission, outcomes: map<Id, bool>, ids: seq<Id>, failed: bool)
    requires (forall j <- ids :: j in t.items) && SubmitItems(t, s, outcomes, ids, failed).Ok?
    ensures var t' := SubmitItems(t, s, outcomes, ids, failed).value.0;
            && t'.packages == t.packages && t'.nextId == t.nextId + |ids|
            && t'.attempts == t.attempts + NewAttempts(t.nextId, s, outcomes, ids)
    decreases |ids|
  {
    if ids == [] {
      assert t.attempts + NewAttempts(t.nextId, s, outcomes, ids) == t.attempts;
    } else {
      var t1 := SubmitItem(t, s, outcomes, ids[0]).value;
      ItemAttempt(t, s, outcomes, ids[0]);
      ItemsAttempts(t1, s, outcomes, ids[1..], failed || t1.items[ids[0]].status.PublishFailed?);
      AttemptsJoin(t.attempts, t.nextId, s, outcomes, ids);
    }
  }

  /** The record of a row, by what the row ends as. */
  function RecordOf(item: Item, status: ItemStatus): Record { Record(item.batch, item.package, item.platform, RecordStatusOf(status)) }

  lemma {:induction false} CasedHas(t: Tables, ids: seq<Id>)
    ensures forall i <- Cased(t, ids) :: i in ids && i in t.items
  {
    if ids != [] { CasedHas(t, ids[1..]); }
  }

  lemma {:induction false} CasedSame(t: Tables, t1: Tables, ids: seq<Id>)
    requires t1.packages == t.packages
    requires forall i <- ids :: (i in t1.items <==> i in t.items) && (i in t.items ==> t1.items[i] == t.items[i])
    ensures Cased(t1, ids) == Cased(t, ids)
  {
    if ids != [] { CasedSame(t, t1, ids[1..]); }
  }

  /** The records of the listed items. */
  function Records(t: Tables, mode: Mode, outcomes: map<Id, bool>, ids: seq<Id>): seq<Record>
    requires forall i <- ids :: i in t.items
  {
    seq(|ids|, (k: nat) requires k < |ids| => RecordOf(t.items[ids[k]], Verdict(mode, Reported(outcomes, ids[k]))))
  }

  lemma {:induction false} RecordsFirst(t: Tables, t1: Tables, mode: Mode, outcomes: map<Id, bool>, i: Id, ids: seq<Id>)
    requires i in t.items && forall j <- ids :: j in t.items && j in t1.items && t1.items[j] == t.items[j]
    ensures Records(t, mode, outcomes, [i] + ids) ==
            [RecordOf(t.items[i], Verdict(mode, Reported(outcomes, i)))] + Records(t1, mode, outcomes, ids)
    ensures Records(t, mode, outcomes, ids) == Records(t1, mode, outcomes, ids)
  {
    var all := [i] + ids;
    forall k | 0 < k < |all| ensures all[k] == ids[k - 1] && ids[k - 1] in ids { }
  }

  lemma {:induction false} ItemRecord(t: Tables, s: Submission, outcomes: map<Id, bool>, i: Id)
    requires i in t.items && SubmitItem(t, s, outcomes, i).Ok?
    ensures SubmitItem(t, s, outcomes, i).value.records ==
            t.records + if HasCase(t, t.items[i]) then [RecordOf(t.items[i], Verdict(s.mode, Reported(outcomes, i)))] else []
  {
    DriveOutcome(t.items[i].status, s.mode, Reported(outcomes, i));
  }

  lemma {:induction false} CasedFirst(t: Tables, ids: seq<Id>)
    requires ids != [] && ids[0] in t.items
    ensures Cased(t, ids) == if HasCase(t, t.items[ids[0]]) then [ids[0]] + Cased(t, ids[1..]) else Cased(t, ids[1..])
  {
  }

  lemma {:induction false} ItemsRecords(t: Tables, s: Submission, outcomes: map<Id, bool>, ids: seq<Id>, failed: bool)
    requires (forall j <- ids :: j in t.items) && Distinct(ids) && SubmitItems(t, s, outcomes, ids, failed).Ok?
    ensures forall i <- Cased(t, ids) :: i in t.items
    ensures SubmitItems(t, s, outcomes, ids, failed).value.0.records == t.records + Records(t, s.mode, outcomes, Cased(t, ids))
    decreases |ids|
  {
    CasedHas(t, ids);
    if ids != [] {
      SubmitItemRow(t, s, outcomes, ids[0]);
      ItemRecord(t, s, outcomes, ids[0]);
      var t1 := SubmitItem(t, s, outcomes, ids[0]).value;
      var rest := Cased(t, ids[1..]);
      assert forall i <- ids[1..] :: i != ids[0] && t1.items[i] == t.items[i];
      CasedSame(t, t1, ids[1..]);
      CasedHas(t, ids[1..]);
      ItemsRecords(t1, s, outcomes, ids[1..], failed || t1.items[ids[0]].status.PublishFailed?);
      RecordsFirst(t, t1, s.mode, outcomes, ids[0], rest);
      CasedFirst(t, ids);
      var one := [RecordOf(t.items[ids[0]], Verdict(s.mode, Reported(outcomes, ids[0])))];
      Associates(t.records, one, Records(t1, s.mode, outcomes, rest));
    }
  }

  lemma {:induction false} WrittenByVerdict(mode: Mode, outcomes: map<Id, bool>, i: Id, was: Item, a: Attempt)
    requires a.status == AttemptStatusOf(mode, Reported(outcomes, i))
    ensures var now := DrivenRow(was, mode, Verdict(mode, Reported(outcomes, i)));
            RowWritten(mode, outcomes, i, was, now) && AttemptWritten(mode, now, a)
            && RecordWritten(now, RecordOf(was, Verdict(mode, Reported(outcomes, i))))
  {
  }

  /** The status of a publish record, for every status of its item. */
  lemma {:induction false} RecordStatusExactly(s: ItemStatus)
    ensures RecordStatusOf(s).RecordPublished? <==> s.Published?
    ensures RecordStatusOf(s).RecordFailed? <==> s.PublishFailed? || s.GenerationFailed?
    ensures RecordStatusOf(s).RecordSubmitted? <==> s.ReviewReady? || s.ManualReviewReady? || s.Publishing?
  {
  }

  /** The tables after the batch was opened. */
  function Opened(t: Tables, s: Submission): Tables
    requires s.batch in t.batches && OpenBatch(t.batches[s.batch], s.mode).Ok?
  {
    t.(batches := t.batches[s.batch := OpenBatch(t.batches[s.batch], s.mode).value])
  }

  /** A committed submit writes the row of every selected item and of no other. */
  lemma {:induction false} SubmitWritesRows(t: Tables, s: Submission, outcomes: map<Id, bool>)
    requires Inv(t) && s.batch in t.batches && FinishSubmit(t, s, outcomes).Ok?
    ensures var t' := FinishSubmit(t, s, outcomes).value;
            && t'.items.Keys == t.items.Keys && t'.order == t.order
            && forall i <- t.items.Keys ::
                 if t.items[i].batch == s.batch && t.items[i].selected then RowWritten(s.mode, outcomes, i, t.items[i], t'.items[i])
                 else t'.items[i] == t.items[i]
  {
    SelectedAreListed(t, s.batch);
    SubmitItemsRows(Opened(t, s), s, outcomes, Selected(t.items, t.order, s.batch), false);
    forall i | i in t.items ensures RowWritten(s.mode, outcomes, i, t.items[i], DrivenRow(t.items[i], s.mode, Verdict(s.mode, Reported(outcomes, i)))) {
      WrittenByVerdict(s.mode, outcomes, i, t.items[i], Attempt(0, 0, 0, AttemptStatusOf(s.mode, Reported(outcomes, i))));
    }
  }

  lemma {:induction false} RowsByVerdict(t: Tables, s: Submission, outcomes: map<Id, bool>, i: Id)
    requires Inv(t) && s.batch in t.batches && FinishSubmit(t, s, outcomes).Ok? && i in Selected(t.items, t.order, s.batch)
    ensures i in t.items && i in FinishSubmit(t, s, outcomes).value.items
    ensures FinishSubmit(t, s, outcomes).value.items[i] == DrivenRow(t.items[i], s.mode, Verdict(s.mode, Reported(outcomes, i)))
  {
    SelectedAreListed(t, s.batch);
    SubmitItemsRows(Opened(t, s), s, outcomes, Selected(t.items, t.order, s.batch), false);
  }

  lemma {:induction false} AttemptsByMode(t: Tables, s: Submission, outcomes: map<Id, bool>)
    requires Inv(t) && s.batch in t.batches && FinishSubmit(t, s, outcomes).Ok?
    ensures var t', ids := FinishSubmit(t, s, outcomes).value, Selected(t.items, t.order, s.batch);
            && t'.packages == t.packages && t'.nextId == t.nextId + |ids|
            && t'.attempts == t.attempts + NewAttempts(t.nextId, s, outcomes, ids)
  {
    SelectedAreListed(t, s.batch);
    ItemsAttempts(Opened(t, s), s, outcomes, Selected(t.items, t.order, s.batch), false);
  }

  lemma {:induction false} AttemptGoesWithRow(t: Tables, s: Submission, outcomes: map<Id, bool>, i: Id, a: Attempt)
    requires Inv(t) && s.batch in t.batches && FinishSubmit(t, s, outcomes).Ok? && i in Selected(t.items, t.order, s.batch)
    requires a.status == AttemptStatusOf(s.mode, Reported(outcomes, i))
    ensures var t' := FinishSubmit(t, s, outcomes).value; i in t'.items && AttemptWritten(s.mode, t'.items[i], a)
  {
    RowsByVerdict(t, s, outcomes, i);
    WrittenByVerdict(s.mode, outcomes, i, t.items[i], a);
  }

  /** One attempt for each of the items, in their order, under the ids from n on, as its row was written. */
  predicate AttemptsAdded(n: nat, s: Submission, ids: seq<Id>, items: map<Id, Item>, added: seq<Attempt>) {
    && |added| == |ids|
    && forall k :: 0 <= k < |ids| ==>
         && added[k].id == n + k && added[k].batch == s.batch && added[k].item == ids[k]
         && ids[k] in items && AttemptWritten(s.mode, items[ids[k]], added[k])
  }

  /** It adds one attempt for each selected item, as they are listed, under new ids, and changes no other attempt. */
  lemma {:induction false} SubmitWritesAttempts(t: Tables, s: Submission, outcomes: map<Id, bool>)
    requires Inv(t) && s.batch in t.batches && FinishSubmit(t, s, outcomes).Ok?
    ensures var t', ids := FinishSubmit(t, s, outcomes).value, Selected(t.items, t.order, s.batch);
            && t'.packages == t.packages && t'.nextId == t.nextId + |ids| && t.attempts <= t'.attempts
            && AttemptsAdded(t.nextId, s, ids, t'.items, t'.attempts[|t.attempts|..])
  {
    var t', ids := FinishSubmit(t, s, outcomes).value, Selected(t.items, t.order, s.batch);
    AttemptsByMode(t, s, outcomes);
    var added := NewAttempts(t.nextId, s, outcomes, ids);
    assert t'.attempts[|t.attempts|..] == added;
    forall k | 0 <= k < |ids| ensures ids[k] in t'.items && AttemptWritten(s.mode, t'.items[ids[k]], added[k]) {
      AttemptGoesWithRow(t, s, outcomes, ids[k], added[k]);
    }
  }

  lemma {:induction false} RecordGoesWithRow(t: Tables, s: Submission, outcomes: map<Id, bool>, i: Id)
    requires Inv(t) && s.batch in t.batches && FinishSubmit(t, s, outcomes).Ok? && i in Selected(t.items, t.order, s.batch)
    ensures var t' := FinishSubmit(t, s, outcomes).value;
            i in t.items && i in t'.items && RecordWritten(t'.items[i], RecordOf(t.items[i], Verdict(s.mode, Reported(outcomes, i))))
  {
    RowsByVerdict(t, s, outcomes, i);
    WrittenByVerdict(s.mode, outcomes, i, t.items[i], Attempt(0, 0, 0, AttemptStatusOf(s.mode, Reported(outcomes, i))));
  }

  lemma {:induction false} RecordsByVerdict(t: Tables, s: Submission, outcomes: map<Id, bool>)
    requires Inv(t) && s.batch in t.batches && FinishSubmit(t, s, outcomes).Ok?
    ensures var ids := Cased(t, Selected(t.items, t.order, s.batch));
            && (forall i <- ids :: i in t.items && i in Selected(t.items, t.order, s.batch))
            && FinishSubmit(t, s, outcomes).value.records == t.records + Records(t, s.mode, outcomes, ids)
  {
    var chosen := Selected(t.items, t.order, s.batch);
    SelectedAreListed(t, s.batch);
    CasedSame(t, Opened(t, s), chosen);
    CasedHas(t, chosen);
    ItemsRecords(Opened(t, s), s, outcomes, chosen, false);
    assert Records(Opened(t, s), s.mode, outcomes, Cased(t, chosen)) == Records(t, s.mode, outcomes, Cased(t, chosen));
  }

  /** It adds one publish record for each selected item whose package has a case, and changes no other record. */
  lemma {:induction false} SubmitWritesRecords(t: Tables, s: Submission, outcomes: map<Id, bool>)
    requires Inv(t) && s.batch in t.batches && FinishSubmit(t, s, outcomes).Ok?
    ensures var t', ids := FinishSubmit(t, s, outcomes).value, Cased(t, Selected(t.items, t.order, s.batch));
            && t.records <= t'.records
            && var added := t'.records[|t.records|..];
               && |added| == |ids| && forall k :: 0 <= k < |ids| ==> ids[k] in t'.items && RecordWritten(t'.items[ids[k]], added[k])
  {
    var t', ids := FinishSubmit(t, s, outcomes).value, Cased(t, Selected(t.items, t.order, s.batch));
    RecordsByVerdict(t, s, outcomes);
    var added := Records(t, s.mode, outcomes, ids);
    assert t'.records[|t.records|..] == added;
    forall k | 0 <= k < |ids| ensures ids[k] in t'.items && RecordWritten(t'.items[ids[k]], added[k]) {
      assert ids[k] in ids;
      RecordGoesWithRow(t, s, outcomes, ids[k]);
    }
  }

  /** The batch of a committed submit: in review after a dry run, completed without a runner, and with one partially
      failed exactly when the runner did not report success for some selected item. No other batch changes. */
  lemma {:induction false} SubmitClosesBatch(t: Tables, s: Submission, outcomes: map<Id, bool>)
    requires Inv(t) && s.batch in t.batches && FinishSubmit(t, s, outcomes).Ok?
    ensures var t' := FinishSubmit(t, s, outcomes).value;
            && t'.batches.Keys == t.batches.Keys && (forall b <- t.batches.Keys :: b != s.batch ==> t'.batches[b] == t.batches[b])
            && (t'.batches[s.batch].InReview? <==> s.mode.dryRun)
            && (t'.batches[s.batch].PartialFailed? <==>
                 !s.mode.dryRun && s.mode.runner
                 && exists i <- t.items.Keys :: t.items[i].batch == s.batch && t.items[i].selected && !Succeeded(outcomes, i))
            && (t'.batches[s.batch].InReview? || t'.batches[s.batch].PartialFailed? || t'.batches[s.batch].Completed?)
  {
    var t1 := t.(batches := t.batches[s.batch := OpenBatch(t.batches[s.batch], s.mode).value]);
    var ids := Selected(t.items, t.order, s.batch);
    SelectedAreListed(t, s.batch);
    SubmitItemsBatches(t1, s, outcomes, ids, false);
    SubmitItemsFlag(t1, s, outcomes, ids, false);
    forall i | i in ids ensures Verdict(s.mode, Reported(outcomes, i)).PublishFailed? <==> !s.mode.dryRun && s.mode.runner && !Succeeded(outcomes, i) { }
  }

  // ---- funnel events ------------------------------------------------------

  lemma {:induction false} StagesOf(added: seq<Attempt>, n: nat)
    requires n < |added| && forall j, k :: 0 <= j < k < |added| ==> added[j].id != added[k].id
    ensures var x, staged := added[n].id, Staged(added);
            && StartedEvent(x) in staged
            && (PublishedEvent(x) in staged <==> added[n].status.Delivered?)
            && (FailedEvent(x) in staged <==> added[n].status.Failed?)
  {
    StagedExactly(added, added[n].id);
  }

  /** The events of an attempt: it was started; it was published exactly when its item is and was not scheduled, and
      failed exactly when its item is. */
  predicate Announced(staged: seq<Funnel>, attempt: Id, now: Item, mode: Mode) {
    && StartedEvent(attempt) in staged
    && (PublishedEvent(attempt) in staged <==> now.status.Published? && mode.schedule.None?)
    && (FailedEvent(attempt) in staged <==> now.status.PublishFailed?)
  }

  lemma {:induction false} StagesWritten(n: nat, s: Submission, ids: seq<Id>, items: map<Id, Item>, added: seq<Attempt>, k: nat)
    requires AttemptsAdded(n, s, ids, items, added) && k < |ids|
    ensures ids[k] in items && Announced(Staged(added), n + k, items[ids[k]], s.mode)
  {
    StagesOf(added, k);
  }

  /** Every attempt added for the items is announced. */
  ghost predicate AllAnnounced(t: Tables, t': Tables, ids: seq<Id>, mode: Mode) {
    && t.attempts <= t'.attempts
    && forall k :: 0 <= k < |ids| ==>
         ids[k] in t'.items && Announced(Staged(t'.attempts[|t.attempts|..]), t.nextId + k, t'.items[ids[k]], mode)
  }

  lemma {:induction false} AddedAreAnnounced(t: Tables, t': Tables, s: Submission, ids: seq<Id>)
    requires t.attempts <= t'.attempts && AttemptsAdded(t.nextId, s, ids, t'.items, t'.attempts[|t.attempts|..])
    ensures AllAnnounced(t, t', ids, s.mode)
  {
    forall k | 0 <= k < |ids|
      ensures ids[k] in t'.items && Announced(Staged(t'.attempts[|t.attempts|..]), t.nextId + k, t'.items[ids[k]], s.mode)
    {
      StagesWritten(t.nextId, s, ids, t'.items, t'.attempts[|t.attempts|..], k);
    }
  }

  /** The funnel events of a committed submit: a started one for every attempt it adds, a published one exactly for the
      items that ended published and were not scheduled, and a failed one exactly for those that ended failed. */
  lemma {:induction false} SubmitStages(t: Tables, s: Submission, outcomes: map<Id, bool>)
    requires Inv(t) && s.batch in t.batches && FinishSubmit(t, s, outcomes).Ok?
    ensures AllAnnounced(t, FinishSubmit(t, s, outcomes).value, Selected(t.items, t.order, s.batch), s.mode)
  {
    SubmitWritesAttempts(t, s, outcomes);
    AddedAreAnnounced(t, FinishSubmit(t, s, outcomes).value, s, Selected(t.items, t.order, s.batch));
  }

  lemma {:induction false} StagedFrom(a: seq<Attempt>)
    ensures forall e <- Staged(a) :: exists k :: 0 <= k < |a| && e.attempt == a[k].id
  {
    if a != [] {
      var front, last := a[..|a| - 1], a[|a| - 1];
      StagedFrom(front);
      forall e | e in Staged(a) ensures exists k :: 0 <= k < |a| && e.attempt == a[k].id {
        if e in Staged(front) {
          var k :| 0 <= k < |front| && e.attempt == front[k].id;
          assert a[k] == front[k];
        } else {
          assert e in EventsOf(last);
        }
      }
    }
  }

  lemma {:induction false} EventsOnce(a: Attempt, e: Funnel)
    ensures multiset(EventsOf(a))[e] <= 1 && (e in EventsOf(a) ==> e.attempt == a.id)
  {
  }

  /** No event is staged twice. */
  lemma {:induction false} StagedOnce(a: seq<Attempt>, e: Funnel)
    requires forall j, k :: 0 <= j < k < |a| ==> a[j].id != a[k].id
    ensures multiset(Staged(a))[e] <= 1
  {
    if a != [] {
      var front, last := a[..|a| - 1], a[|a| - 1];
      StagedOnce(front, e);
      EventsOnce(last, e);
      StagedFrom(front);
      assert multiset(Staged(a))[e] == multiset(Staged(front))[e] + multiset(EventsOf(last))[e];
      if e in Staged(front) {
        var k :| 0 <= k < |front| && e.attempt == front[k].id;
        assert front[k] == a[k];
      }
    }
  }

  // ---- retries ------------------------------------------------------------

  /** A retry raises exactly when it finds an item that is not failed, or the runner reports no success; it leaves
      everything alone when it finds none. */
  lemma {:induction false} RetryExactly(t: Tables, b: Id, i: Id, ok: bool)
    ensures var found := b in t.batches && i in t.items && t.items[i].batch == b;
            && (RetryItem(t, b, i, ok).Err? <==> found && !(t.items[i].status.PublishFailed? && ok))
            && (RetryItem(t, b, i, ok).Err? ==> RetryItem(t, b, i, ok).error.InvalidOptions?)
            && (!found ==> RetryItem(t, b, i, ok) == Ok(t))
  {
  }

  /** What a successful retry writes: the item is published with one more attempt, delivered, and one more record if its
      package has a case; no other row changes. */
  lemma {:induction false} RetryWrites(t: Tables, b: Id, i: Id)
    requires b in t.batches && i in t.items && t.items[i].batch == b && t.items[i].status.PublishFailed?
    ensures var r := RetryItem(t, b, i, true);
            && r.Ok? && var t' := r.value; var now := t'.items[i];
            && now == t.items[i].(status := Published) && t'.items.Keys == t.items.Keys
            && (forall j <- t.items.Keys :: j != i ==> t'.items[j] == t.items[j])
            && t'.attempts == t.attempts + [Attempt(t.nextId, b, i, Delivered)] && t'.nextId == t.nextId + 1
            && (if HasCase(t, now) then |t'.records| == |t.records| + 1 && t'.records[..|t.records|] == t.records
                                        && RecordWritten(now, t'.records[|t.records|])
                else t'.records == t.records)
            && t'.packages == t.packages && t'.order == t.order
  {
    assert AfterRetry(t.batches[b], AllPublished(RecordItem(t, b, i, t.items[i].(status := Published), Delivered).items, b)).Ok?;
  }

  /** A batch that was publishing or partially failed is then completed if every item of it is published, and publishing
      otherwise; no other batch changes. */
  lemma {:induction false} RetryClosesBatch(t: Tables, b: Id, i: Id)
    requires b in t.batches && i in t.items && t.items[i].batch == b && t.items[i].status.PublishFailed?
    ensures var r := RetryItem(t, b, i, true);
            && r.Ok? && var t' := r.value;
            && t'.batches.Keys == t.batches.Keys && (forall c <- t.batches.Keys :: c != b ==> t'.batches[c] == t.batches[c])
            && (if t.batches[b].PartialFailed? || t.batches[b].Sending? then
                  t'.batches[b] == if forall j <- t'.items.Keys :: t'.items[j].batch == b ==> t'.items[j].status.Published?
                                   then Completed else Sending
                else t'.batches[b] == t.batches[b])
  {
    assert AfterRetry(t.batches[b], AllPublished(RecordItem(t, b, i, t.items[i].(status := Published), Delivered).items, b)).Ok?;
  }

  // ---- creation -----------------------------------------------------------

  lemma {:induction false} NewItemsLists(t: Tables, b: Id, pairs: seq<(Id, string)>)
    requires forall p <- pairs :: p.0 in t.packages
    ensures var t' := NewItems(t, b, pairs);
            && t'.packages == t.packages && t'.batches == t.batches && t'.attempts == t.attempts && t'.records == t.records
            && t'.nextId == t.nextId + |pairs| && t'.order == t.order + seq(|pairs|, k => t.nextId + k)
    decreases |pairs|
  {
    if pairs != [] {
      var t1 := NewItem(t, b, pairs[0].0, pairs[0].1);
      assert forall p <- pairs[1..] :: p in pairs;
      NewItemsLists(t1, b, pairs[1..]);
      assert [t.nextId] + seq(|pairs| - 1, k => t1.nextId + k) == seq(|pairs|, k => t.nextId + k);
    }
  }

  /** The item of a package on a platform, as it is created. */
  predicate Fresh(t: Tables, b: Id, package: Id, platform: string, item: Item) {
    && item.batch == b && item.package == package && item.platform == platform && item.selected && item.status.Uploaded?
    && package in t.packages && item.scheduledAt == t.packages[package].scheduledAt && item.details == t.packages[package].defaults
  }

  lemma {:induction false} NewItemsKeys(t: Tables, b: Id, pairs: seq<(Id, string)>)
    requires forall p <- pairs :: p.0 in t.packages
    ensures var t' := NewItems(t, b, pairs);
            && (forall i :: i in t'.items <==> i in t.items || t.nextId <= i < t.nextId + |pairs|)
            && (forall i <- t.items.Keys :: i < t.nextId ==> t'.items[i] == t.items[i])
    decreases |pairs|
  {
    if pairs != [] {
      assert forall p <- pairs[1..] :: p in pairs;
      NewItemsKeys(NewItem(t, b, pairs[0].0, pairs[0].1), b, pairs[1..]);
    }
  }

  lemma {:induction false} NewItemAt(t: Tables, b: Id, pairs: seq<(Id, string)>, k: nat)
    requires k < |pairs| && forall p <- pairs :: p.0 in t.packages
    ensures var t' := NewItems(t, b, pairs);
            t.nextId + k in t'.items && Fresh(t, b, pairs[k].0, pairs[k].1, t'.items[t.nextId + k])
    decreases |pairs|
  {
    var t1 := NewItem(t, b, pairs[0].0, pairs[0].1);
    assert forall p <- pairs[1..] :: p in pairs;
    if k == 0 {
      NewItemsKeys(t1, b, pairs[1..]);
    } else {
      NewItemAt(t1, b, pairs[1..], k - 1);
    }
  }

  lemma {:induction false} TimesMore(m: nat, n: nat)
    requires m >= 1
    ensures m * n >= n
  {
  }

  lemma {:induction false} PairIndex(m: nat, n: nat, p: nat, f: nat)
    requires p < m && f < n
    ensures p * n + f < m * n
  {
    TimesMore(m - p, n);
    assert m * n == (m - p) * n + p * n;
  }

  lemma {:induction false} PairCount(packages: seq<Id>, platforms: seq<string>)
    ensures |Pairs(packages, platforms)| == |packages| * |platforms|
  {
    if packages != [] {
      PairCount(packages[1..], platforms);
      assert |packages| * |platforms| == |platforms| + |packages[1..]| * |platforms|;
    }
  }

  lemma {:induction false} PairAt(packages: seq<Id>, platforms: seq<string>, p: nat, f: nat)
    requires p < |packages| && f < |platforms|
    ensures |Pairs(packages, platforms)| == |packages| * |platforms|
    ensures p * |platforms| + f < |packages| * |platforms|
    ensures Pairs(packages, platforms)[p * |platforms| + f] == (packages[p], platforms[f])
  {
    var n := |platforms|;
    PairCount(packages, platforms);
    PairIndex(|packages|, n, p, f);
    if p > 0 {
      PairAt(packages[1..], platforms, p - 1, f);
      assert p * n + f == n + ((p - 1) * n + f);
    }
  }

  /** A batch is created exactly when there are packages and platforms and every package exists. */
  lemma {:induction false} CreateExactly(t: Tables, packages: seq<Id>, platforms: seq<string>)
    ensures var r := CreateBatch(t, packages, platforms);
            if packages == [] || platforms == [] then r == Err(InvalidOptions)
            else if exists p <- packages :: p !in t.packages then r == Err(ArtifactMissing)
            else r.Ok?
  {
  }

  /** What it writes: a draft batch, and as many items as packages times platforms, under new ids and listed last in
      that order; nothing else changes. */
  lemma {:induction false} CreateWrites(t: Tables, packages: seq<Id>, platforms: seq<string>)
    requires Inv(t) && CreateBatch(t, packages, platforms).Ok?
    ensures var t' := CreateBatch(t, packages, platforms).value;
            var n, b := |packages| * |platforms|, t.nextId;
            && t'.nextId == t.nextId + 1 + n
            && t'.batches == t.batches[b := Draft]
            && t'.order == t.order + seq(n, k => b + 1 + k)
            && (forall j :: j in t'.items <==> j in t.items || b < j <= b + n)
            && (forall j <- t.items.Keys :: t'.items[j] == t.items[j])
            && t'.packages == t.packages && t'.attempts == t.attempts && t'.records == t.records
  {
    var t1 := t.(batches := t.batches[t.nextId := Draft], nextId := t.nextId + 1);
    var pairs := Pairs(packages, platforms);
    PairCount(packages, platforms);
    NewItemsLists(t1, t.nextId, pairs);
    NewItemsKeys(t1, t.nextId, pairs);
    assert forall j <- t.items.Keys :: ItemOk(t, j);
    assert seq(|pairs|, k => t.nextId + 1 + k) == seq(|pairs|, k => t1.nextId + k);
  }

  /** The items: for every package and platform an uploaded, selected one with the defaults of the package, packages
      outermost. */
  lemma {:induction false} CreateItems(t: Tables, packages: seq<Id>, platforms: seq<string>, p: nat, f: nat)
    requires Inv(t) && CreateBatch(t, packages, platforms).Ok? && p < |packages| && f < |platforms|
    ensures var t', i := CreateBatch(t, packages, platforms).value, t.nextId + 1 + p * |platforms| + f;
            i in t'.items && Fresh(t, t.nextId, packages[p], platforms[f], t'.items[i])
  {
    var t1 := t.(batches := t.batches[t.nextId := Draft], nextId := t.nextId + 1);
    PairAt(packages, platforms, p, f);
    NewItemAt(t1, t.nextId, Pairs(packages, platforms), p * |platforms| + f);
  }

  // ---- patches and deletes ------------------------------------------------

  /** A patch writes the fields it gives and no others, on the item it names and no other. */
  lemma {:induction false} PatchWrites(t: Tables, i: Id, selected: Option<bool>, schedule: Option<int>, details: Details)
    ensures var t' := PatchItem(t, i, selected, schedule, details);
            && t' == t.(items := t'.items) && t'.items.Keys == t.items.Keys
            && (forall j <- t.items.Keys :: j != i ==> t'.items[j] == t.items[j])
            && (i in t.items ==>
                 var was, now := t.items[i], t'.items[i];
                 && now.batch == was.batch && now.package == was.package && now.platform == was.platform && now.status == was.status
                 && (now.selected <==> if selected.Some? then selected.value else was.selected)
                 && (schedule.Some? ==> now.scheduledAt == schedule) && (schedule.None? ==> now.scheduledAt == was.scheduledAt)
                 && (forall name <- details :: name in now.details && now.details[name] == details[name])
                 && (forall name <- was.details :: name !in details ==> name in now.details && now.details[name] == was.details[name])
                 && now.details.Keys == was.details.Keys + details.Keys)
  {
  }

  lemma {:induction false} AttemptsOutsideCount(a: seq<Attempt>, gone: set<Id>, x: Attempt)
    ensures multiset(AttemptsOutside(a, gone))[x] == if x.item in gone then 0 else multiset(a)[x]
  {
    if a != [] {
      AttemptsOutsideCount(a[..|a| - 1], gone, x);
      assert a == a[..|a| - 1] + [a[|a| - 1]];
    }
  }

  lemma {:induction false} AttemptsOfOthersCount(a: seq<Attempt>, b: Id, x: Attempt)
    ensures multiset(AttemptsOfOthers(a, b))[x] == if x.batch == b then 0 else multiset(a)[x]
  {
    if a != [] {
      AttemptsOfOthersCount(a[..|a| - 1], b, x);
      assert a == a[..|a| - 1] + [a[|a| - 1]];
    }
  }

  lemma {:induction false} OrderOutsideHas(order: seq<Id>, gone: set<Id>)
    ensures forall i :: i in OrderOutside(order, gone) <==> i in order && i !in gone
  {
    if order != [] {
      OrderOutsideHas(order[..|order| - 1], gone);
      assert order == order[..|order| - 1] + [order[|order| - 1]];
    }
  }

  lemma {:induction false} EarlierStays(order: seq<Id>, gone: set<Id>, a: Id, b: Id)
    requires Earlier(order, a, b) && a !in gone && b !in gone
    ensures Earlier(OrderOutside(order, gone), a, b)
    decreases |order|
  {
    var p, q :| 0 <= p < q < |order| && order[p] == a && order[q] == b;
    var front, last := order[..|order| - 1], order[|order| - 1];
    if q < |front| {
      assert front[p] == a && front[q] == b;
      EarlierStays(front, gone, a, b);
      var rest := OrderOutside(front, gone);
      var p', q' :| 0 <= p' < q' < |rest| && rest[p'] == a && rest[q'] == b;
      assert OrderOutside(order, gone)[p'] == a && OrderOutside(order, gone)[q'] == b;
    } else {
      var rest := OrderOutside(front, gone);
      OrderOutsideHas(front, gone);
      assert front[p] == a && a in front;
      var p' :| 0 <= p' < |rest| && rest[p'] == a;
      assert OrderOutside(order, gone) == rest + [b];
      assert OrderOutside(order, gone)[p'] == a && OrderOutside(order, gone)[|rest|] == b;
    }
  }

  /** A deleted item goes with its place in the list and all its attempts; the rest keep theirs. */
  lemma {:induction false} DeleteItemWrites(t: Tables, i: Id, x: Attempt, a: Id, b: Id)
    requires Inv(t)
    ensures var t' := DeleteItem(t, i);
            && t'.items == t.items - {i} && t' == t.(items := t'.items, order := t'.order, attempts := t'.attempts)
            && multiset(t'.attempts)[x] == (if x.item == i then 0 else multiset(t.attempts)[x])
            && (a in t'.order <==> a in t.order && a != i)
            && (Earlier(t.order, a, b) && a != i && b != i ==> Earlier(t'.order, a, b))
  {
    if i in t.items {
      AttemptsOutsideCount(t.attempts, {i}, x);
      OrderOutsideHas(t.order, {i});
      if Earlier(t.order, a, b) && a != i && b != i { EarlierStays(t.order, {i}, a, b); }
    } else {
      forall y | y in t.attempts ensures y.item != i {
        assert AttemptOk(t, y);
      }
    }
  }

  /** A deleted batch goes with all its items and attempts; the rest stay. */
  lemma {:induction false} DeleteBatchWrites(t: Tables, c: Id, x: Attempt, a: Id, b: Id)
    requires Inv(t) && c in t.batches
    ensures var t' := DeleteBatch(t, c);
            && t'.batches == t.batches - {c}
            && (forall i :: i in t'.items <==> i in t.items && t.items[i].batch != c)
            && (forall i <- t'.items.Keys :: t'.items[i] == t.items[i])
            && t' == t.(items := t'.items, order := t'.order, attempts := t'.attempts, batches := t'.batches)
            && multiset(t'.attempts)[x] == (if x.batch == c then 0 else multiset(t.attempts)[x])
            && (a in t'.order <==> a in t.order && a in t'.items)
            && (Earlier(t.order, a, b) && a in t'.items && b in t'.items ==> Earlier(t'.order, a, b))
  {
    var gone := ItemsOf(t.items, c);
    AttemptsOfOthersCount(t.attempts, c, x);
    OrderOutsideHas(t.order, gone);
    if Earlier(t.order, a, b) && a !in gone && b !in gone { EarlierStays(t.order, gone, a, b); }
  }
}
