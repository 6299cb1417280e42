/** What a committed submit decides, how retries close a batch, and what never changes afterwards. */
module PublishVerdicts {
  import opened Results
  import opened PublishStates
  import opened PublishTables
  import opened PublishProtocol

  // ---- once published, always published, with the same attempts -----------

  /** Item i is gone for good, or still published with the given attempts. */
  predicate Frozen(t: Tables, i: Id, done: seq<Attempt>) {
    && i < t.nextId
    && (i in t.items ==> t.items[i].status.Published? && AttemptsOf(t.attempts, i) == done)
  }

  lemma {:induction false} RecordOther(t: Tables, b: Id, j: Id, row: Item, attempt: AttemptStatus, i: Id, done: seq<Attempt>)
    requires Frozen(t, i, done) && i != j
    ensures Frozen(RecordItem(t, b, j, row, attempt), i, done)
  {
    AppendAttempt(t.attempts, Attempt(t.nextId, b, j, attempt), i);
  }

  lemma {:induction false} SubmitItemsFreeze(t: Tables, s: Submission, outcomes: map<Id, bool>, ids: seq<Id>, failed: bool, i: Id, done: seq<Attempt>)
    requires forall j <- ids :: j in t.items
    requires SubmitItems(t, s, outcomes, ids, failed).Ok? && Frozen(t, i, done)
    ensures Frozen(SubmitItems(t, s, outcomes, ids, failed).value.0, i, done)
    decreases |ids|
  {
    if ids != [] {
      var reported := Reported(outcomes, ids[0]);
      var before := t.items[ids[0]];
      var t' := SubmitItem(t, s, outcomes, ids[0]).value;
      RecordOther(t, s.batch, if ids[0] != i then ids[0] else i + 1, DrivenRow(before, s.mode, Drive(before.status, s.mode, reported).value),
                  AttemptStatusOf(s.mode, reported), i, done);
      SubmitItemsFreeze(t', s, outcomes, ids[1..], failed || t'.items[ids[0]].status.PublishFailed?, i, done);
    }
  }

  lemma {:induction false} NewItemsFreeze(t: Tables, b: Id, pairs: seq<(Id, string)>, i: Id, done: seq<Attempt>)
    requires (forall p <- pairs :: p.0 in t.packages) && Frozen(t, i, done)
    ensures Frozen(NewItems(t, b, pairs), i, done)
    decreases |pairs|
  {
    if pairs != [] {
      NewItemsFreeze(NewItem(t, b, pairs[0].0, pairs[0].1), b, pairs[1..], i, done);
    }
  }

  lemma {:induction false} StepFreezes(w: World, e: Event, i: Id, done: seq<Attempt>)
    requires Inv(w.t) && Frozen(w.t, i, done)
    ensures Frozen(Step(w, e).t, i, done)
  {
    match e
    case Create(ps, fs) =>
      if CreateBatch(w.t, ps, fs).Ok? {
        NewItemsFreeze(w.t.(batches := w.t.batches[w.t.nextId := Draft], nextId := w.t.nextId + 1), w.t.nextId, Pairs(ps, fs), i, done);
      }
    case Begin(s) =>
    case Answer(f, ok) =>
    case Finish(f) =>
      if Answered(w, f) {
        var s, outcomes := w.flights[f].sub, w.flights[f].outcomes;
        if s.batch in w.t.batches && FinishSubmit(w.t, s, outcomes).Ok? {
          var t1 := w.t.(batches := w.t.batches[s.batch := OpenBatch(w.t.batches[s.batch], s.mode).value]);
          SelectedAreRows(t1.items, t1.order, s.batch);
          SubmitItemsFreeze(t1, s, outcomes, Selected(t1.items, t1.order, s.batch), false, i, done);
        }
      }
    case Retry(b, j, ok) =>
      if j != i && RetryItem(w.t, b, j, ok).Ok? && j in w.t.items {
        RecordOther(w.t, b, j, w.t.items[j].(status := Published), Delivered, i, done);
      }
    case Patch(j, sel, sched, details) =>
    case RemoveItem(j) => AttemptsOutsideKeeps(w.t.attempts, {j}, i);
    case RemoveBatch(b) => AttemptsOfOthersKeeps(w.t, w.t.attempts, b, i);
  }

  lemma {:induction false} RunFreezes(w: World, events: seq<Event>, i: Id, done: seq<Attempt>)
    requires Inv(w.t) && Frozen(w.t, i, done)
    ensures Frozen(Run(w, events).t, i, done)
    decreases |events|
  {
    if events != [] {
      StepKeeps(w, events[0]);
      StepFreezes(w, events[0], i, done);
      RunFreezes(Step(w, events[0]), events[1..], i, done);
    }
  }

  /** A published item is never recorded again: however submits, retries and edits interleave
      afterwards, as long as it lives it stays published with exactly the attempts it had. */
  lemma {:induction false} PublishedIsFinal(w: World, events: seq<Event>, i: Id)
    requires Inv(w.t) && i in w.t.items && w.t.items[i].status.Published?
    ensures Frozen(Run(w, events).t, i, AttemptsOf(w.t.attempts, i))
  {
    assert ItemOk(w.t, i);
    RunFreezes(w, events, i, AttemptsOf(w.t.attempts, i));
  }

  // ---- what transaction B does to every row -------------------------------

  predicate Drivable(s: ItemStatus, mode: Mode) {
    Submittable(s) && (mode.dryRun ==> !s.ManualReviewReady? && !s.PublishFailed?)
  }

  function Verdict(mode: Mode, reported: Option<bool>): ItemStatus {
    if mode.dryRun then ReviewReady
    else if mode.runner && reported != Some(true) then PublishFailed
    else Published
  }

  lemma {:induction false} SubmitItemRow(t: Tables, s: Submission, outcomes: map<Id, bool>, i: Id)
    requires i in t.items
    ensures SubmitItem(t, s, outcomes, i).Ok? <==> Drivable(t.items[i].status, s.mode)
    ensures SubmitItem(t, s, outcomes, i).Ok? ==>
              var t' := SubmitItem(t, s, outcomes, i).value;
              && t'.items == t.items[i := DrivenRow(t.items[i], s.mode, Verdict(s.mode, Reported(outcomes, i)))]
              && t'.order == t.order
  {
    DriveOutcome(t.items[i].status, s.mode, Reported(outcomes, i));
  }

  /** The loop commits exactly when every listed row can be driven. */
  lemma {:induction false} SubmitItemsCommit(t: Tables, s: Submission, outcomes: map<Id, bool>, ids: seq<Id>, failed: bool)
    requires (forall j <- ids :: j in t.items) && Distinct(ids)
    ensures SubmitItems(t, s, outcomes, ids, failed).Ok? <==> forall j <- ids :: Drivable(t.items[j].status, s.mode)
    decreases |ids|
  {
    if ids != [] {
      SubmitItemRow(t, s, outcomes, ids[0]);
      if Drivable(t.items[ids[0]].status, s.mode) {
        var t' := SubmitItem(t, s, outcomes, ids[0]).value;
        SubmitItemsCommit(t', s, outcomes, ids[1..], failed || t'.items[ids[0]].status.PublishFailed?);
        assert forall j <- ids[1..] :: j != ids[0] && t'.items[j] == t.items[j];
      }
    }
  }

  /** Then each listed row gets its verdict and no other row moves. */
  lemma {:induction false} SubmitItemsRows(t: Tables, s: Submission, outcomes: map<Id, bool>, ids: seq<Id>, failed: bool)
    requires (forall j <- ids :: j in t.items) && Distinct(ids)
    requires SubmitItems(t, s, outcomes, ids, failed).Ok?
    ensures var t' := SubmitItems(t, s, outcomes, ids, failed).value.0;
            && t'.items.Keys == t.items.Keys
            && t'.order == t.order
            && forall j <- t.items.Keys :: t'.items[j] ==
                 if j in ids then DrivenRow(t.items[j], s.mode, Verdict(s.mode, Reported(outcomes, j))) else t.items[j]
    decreases |ids|
  {
    if ids != [] {
      SubmitItemRow(t, s, outcomes, ids[0]);
      var t' := SubmitItem(t, s, outcomes, ids[0]).value;
      SubmitItemsRows(t', s, outcomes, ids[1..], failed || t'.items[ids[0]].status.PublishFailed?);
      assert forall j :: j in ids <==> j == ids[0] || j in ids[1..];
      assert ids[0] !in ids[1..];
    }
  }

  /** And the flag says whether some row failed. */
  lemma {:induction false} SubmitItemsFlag(t: Tables, s: Submission, outcomes: map<Id, bool>, ids: seq<Id>, failed: bool)
    requires (forall j <- ids :: j in t.items) && Distinct(ids)
    requires SubmitItems(t, s, outcomes, ids, failed).Ok?
    ensures SubmitItems(t, s, outcomes, ids, failed).value.1 <==>
            failed || exists j <- ids :: Verdict(s.mode, Reported(outcomes, j)).PublishFailed?
    decreases |ids|
  {
    if ids != [] {
      SubmitItemRow(t, s, outcomes, ids[0]);
      var t' := SubmitItem(t, s, outcomes, ids[0]).value;
      SubmitItemsFlag(t', s, outcomes, ids[1..], failed || t'.items[ids[0]].status.PublishFailed?);
      assert forall j :: j in ids <==> j == ids[0] || j in ids[1..];
    }
  }

  lemma {:induction false} SelectedDistinct(items: map<Id, Item>, order: seq<Id>, batch: Id)
    requires Distinct(order)
    ensures Distinct(Selected(items, order, batch))
  {
    if order != [] {
      assert Distinct(order[1..]);
      SelectedDistinct(items, order[1..], batch);
      SelectedAreRows(items, order[1..], batch);
    }
  }

  predicate Chosen(t: Tables, b: Id, i: Id) {
    i in t.items && t.items[i].batch == b && t.items[i].selected
  }

  lemma {:induction false} ChosenAreSelected(t: Tables, b: Id)
    requires Inv(t)
    ensures forall i :: Chosen(t, b, i) <==> i in Selected(t.items, t.order, b)
  {
    SelectedAreRows(t.items, t.order, b);
  }

  /** Transaction B commits exactly when the batch can be opened and every selected item can be driven,
      both judged on the rows as they are by then, not as transaction A saw them. */
  lemma {:induction false} SubmitCommitsExactly(t: Tables, s: Submission, outcomes: map<Id, bool>)
    requires Inv(t) && s.batch in t.batches
    ensures FinishSubmit(t, s, outcomes).Ok? <==>
            && OpenBatch(t.batches[s.batch], s.mode).Ok?
            && (forall i <- t.items.Keys :: Chosen(t, s.batch, i) ==> Drivable(t.items[i].status, s.mode))
  {
    ChosenAreSelected(t, s.batch);
    SelectedDistinct(t.items, t.order, s.batch);
    if OpenBatch(t.batches[s.batch], s.mode).Ok? {
      var t1 := t.(batches := t.batches[s.batch := OpenBatch(t.batches[s.batch], s.mode).value]);
      SubmitItemsCommit(t1, s, outcomes, Selected(t.items, t.order, s.batch), false);
    }
  }

  /** A committed submit gives every selected item the runner's verdict, touches no other item, and
      leaves the batch partial_failed exactly when some selected item ended publish_failed. */
  lemma {:induction false} SubmitVerdict(t: Tables, s: Submission, outcomes: map<Id, bool>)
    requires Inv(t) && s.batch in t.batches && FinishSubmit(t, s, outcomes).Ok?
    ensures var t' := FinishSubmit(t, s, outcomes).value;
            && t'.items.Keys == t.items.Keys
            && (forall i <- t.items.Keys :: t'.items[i] ==
                 if Chosen(t, s.batch, i) then DrivenRow(t.items[i], s.mode, Verdict(s.mode, Reported(outcomes, i)))
                 else t.items[i])
            && s.batch in t'.batches
            && (s.mode.UsesRunner() ==>
                 t'.batches[s.batch] ==
                 if exists i <- t'.items.Keys :: Chosen(t', s.batch, i) && t'.items[i].status.PublishFailed?
                 then PartialFailed else Completed)
  {
    var t1 := t.(batches := t.batches[s.batch := OpenBatch(t.batches[s.batch], s.mode).value]);
    var ids := Selected(t.items, t.order, s.batch);
    ChosenAreSelected(t, s.batch);
    SelectedDistinct(t.items, t.order, s.batch);
    SubmitItemsRows(t1, s, outcomes, ids, false);
    SubmitItemsFlag(t1, s, outcomes, ids, false);
    SubmitItemsBatches(t1, s, outcomes, ids, false);
    var t' := FinishSubmit(t, s, outcomes).value;
    assert forall i :: Chosen(t', s.batch, i) <==> i in ids;
  }

  lemma {:induction false} PublishedBlocksSubmit(t: Tables, s: Submission, outcomes: map<Id, bool>, i: Id)
    requires Inv(t) && Chosen(t, s.batch, i) && t.items[i].status.Published?
    ensures FinishSubmit(t, s, outcomes).Err?
  {
    assert ItemOk(t, i);
    SubmitCommitsExactly(t, s, outcomes);
  }

  /** Two submits overlap: whatever happens in between, the second one to write raises when the first published
      anything the second still has chosen, and right after the first that is so. */
  lemma {:induction false} OverlappingSubmitRaises(
      w: World, s1: Submission, o1: map<Id, bool>, between: seq<Event>, s2: Submission, o2: map<Id, bool>, i: Id)
    requires Inv(w.t) && FinishSubmit(w.t, s1, o1).Ok?
    requires Chosen(w.t, s1.batch, i) && Verdict(s1.mode, Reported(o1, i)).Published?
    ensures Chosen(FinishSubmit(w.t, s1, o1).value, s1.batch, i)
    ensures var v := Run(w.(t := FinishSubmit(w.t, s1, o1).value), between);
            Chosen(v.t, s2.batch, i) ==> FinishSubmit(v.t, s2, o2).Err?
  {
    var v := w.(t := FinishSubmit(w.t, s1, o1).value);
    assert ItemOk(w.t, i);
    SubmitVerdict(w.t, s1, o1);
    FinishSubmitKeeps(w.t, s1, o1);
    PublishedIsFinal(v, between, i);
    RunKeeps(v, between);
    if Chosen(Run(v, between).t, s2.batch, i) { PublishedBlocksSubmit(Run(v, between).t, s2, o2, i); }
  }

  // ---- retries close a batch ----------------------------------------------

  function FailedIn(t: Tables, b: Id): set<Id> {
    set i | i in t.items && t.items[i].batch == b && t.items[i].status.PublishFailed?
  }

  /** Every item of the batch has a verdict: none was left unselected or still in the pipeline. */
  predicate Decided(t: Tables, b: Id) {
    forall i <- t.items.Keys :: t.items[i].batch == b ==> t.items[i].status.Published? || t.items[i].status.PublishFailed?
  }

  lemma {:induction false} AllPublishedExactly(t: Tables, b: Id)
    ensures AllPublished(t.items, b) <==> FailedIn(t, b) == {} && Decided(t, b)
  {
    if !AllPublished(t.items, b) && Decided(t, b) {
      var i :| i in t.items && t.items[i].batch == b && !t.items[i].status.Published?;
      assert i in FailedIn(t, b);
    }
  }

  lemma {:induction false} RetryRows(t: Tables, b: Id, i: Id)
    requires i in FailedIn(t, b)
    ensures var t' := t.(items := t.items[i := t.items[i].(status := Published)]);
            && FailedIn(t', b) == FailedIn(t, b) - {i}
            && (Decided(t', b) <==> Decided(t, b))
  {
    var t' := t.(items := t.items[i := t.items[i].(status := Published)]);
    if Decided(t', b) {
      forall j | j in t.items.Keys && t.items[j].batch == b ensures t.items[j].status.Published? || t.items[j].status.PublishFailed? {
        assert j in t'.items.Keys;
      }
    }
  }

  /** A successful retry removes exactly one failed item, and completes the batch exactly when that was the
      last one and every item has a verdict. */
  lemma {:induction false} RetryStep(t: Tables, b: Id, i: Id)
    requires Inv(t) && b in t.batches && i in FailedIn(t, b)
    requires t.batches[b].PartialFailed? || t.batches[b].Sending?
    ensures var r := RetryItem(t, b, i, true);
            && r.Ok? && Inv(r.value) && b in r.value.batches
            && FailedIn(r.value, b) == FailedIn(t, b) - {i}
            && (Decided(r.value, b) <==> Decided(t, b))
            && r.value.batches[b] == (if FailedIn(t, b) == {i} && Decided(t, b) then Completed else Sending)
  {
    var row := t.items[i].(status := Published);
    var t1 := t.(items := t.items[i := row]);
    RetryRows(t, b, i);
    AllPublishedExactly(t1, b);
    var done := AllPublished(t1.items, b);
    assert done <==> FailedIn(t, b) == {i} && Decided(t, b);
    var r := RetryItem(t, b, i, true);
    assert r == Ok(RecordItem(t, b, i, row, Delivered).(batches := t.batches[b := if done then Completed else Sending]));
    RetryKeeps(t, b, i, true);
    assert r.value.items == t1.items;
  }

  function RetryAll(t: Tables, b: Id, ids: seq<Id>): Result<Tables, Error>
    decreases |ids|
  {
    if ids == [] then Ok(t)
    else
      var r := RetryItem(t, b, ids[0], true);
      if r.Err? then r else RetryAll(r.value, b, ids[1..])
  }

  lemma {:induction false} OneLess(s: set<Id>, x: Id)
    requires x in s
    ensures |s - {x}| == |s| - 1 && (s == {x} <==> |s| == 1)
  {
    if |s| == 1 { assert s - {x} == {}; }
  }

  /** From a batch awaiting retries, successful retries in any order each lower the number of failed items by
      one. The batch completes exactly at zero when every item has a verdict; an item that was left unselected
      keeps it in publishing. */
  lemma {:induction false} RetriesCountDown(t: Tables, b: Id, ids: seq<Id>)
    requires Inv(t) && b in t.batches && (t.batches[b].PartialFailed? || t.batches[b].Sending?)
    requires Distinct(ids) && (forall i <- ids :: i in FailedIn(t, b)) && ids != []
    ensures var r := RetryAll(t, b, ids);
            && r.Ok? && b in r.value.batches
            && |FailedIn(r.value, b)| == |FailedIn(t, b)| - |ids|
            && r.value.batches[b] == (if |FailedIn(t, b)| == |ids| && Decided(t, b) then Completed else Sending)
    decreases |ids|
  {
    RetryStep(t, b, ids[0]);
    var t' := RetryItem(t, b, ids[0], true).value;
    OneLess(FailedIn(t, b), ids[0]);
    if |ids| > 1 {
      forall i | i in ids[1..] ensures i in FailedIn(t', b) {
        assert i in FailedIn(t, b) && i != ids[0];
      }
      assert ids[1] in FailedIn(t', b);
      RetriesCountDown(t', b, ids[1..]);
    } else {
      assert RetryAll(t', b, ids[1..]) == Ok(t');
    }
  }

  /** A committed runner submit that had every item of the batch selected leaves every item decided, so from
      partial_failed the retries above run down to completed. */
  lemma {:induction false} FullSubmitDecides(t: Tables, s: Submission, outcomes: map<Id, bool>)
    requires Inv(t) && s.batch in t.batches && s.mode.UsesRunner() && FinishSubmit(t, s, outcomes).Ok?
    requires forall i <- t.items.Keys :: t.items[i].batch == s.batch ==> t.items[i].selected
    ensures var t' := FinishSubmit(t, s, outcomes).value;
            && Decided(t', s.batch)
            && s.batch in t'.batches
            && (t'.batches[s.batch].PartialFailed? <==> FailedIn(t', s.batch) != {})
  {
    SubmitVerdict(t, s, outcomes);
    var t' := FinishSubmit(t, s, outcomes).value;
    if i :| i in FailedIn(t', s.batch) {
      assert Chosen(t', s.batch, i);
    }
    if i :| i in t'.items.Keys && Chosen(t', s.batch, i) && t'.items[i].status.PublishFailed? {
      assert i in FailedIn(t', s.batch);
    }
  }

  // ---- nothing is published that no runner acknowledged --------------------

  /** Every outcome a flight holds was acknowledged, every flight asks a runner, and so does every published row. */
  predicate Honest(w: World) {
    && (forall f <- w.flights :: (f.sub.mode.dryRun || f.sub.mode.runner) && forall i <- f.outcomes.Keys :: f.outcomes[i] ==> i in w.acked)
    && (forall i <- w.t.items.Keys :: w.t.items[i].status.Published? ==> i in w.acked)
  }

  predicate AsksRunner(e: Event) {
    e.Begin? ==> e.sub.mode.dryRun || e.sub.mode.runner
  }

  lemma {:induction false} NewItemsUploaded(t: Tables, b: Id, pairs: seq<(Id, string)>)
    requires forall p <- pairs :: p.0 in t.packages
    ensures forall i <- NewItems(t, b, pairs).items.Keys ::
              (i in t.items && NewItems(t, b, pairs).items[i] == t.items[i]) || NewItems(t, b, pairs).items[i].status.Uploaded?
    decreases |pairs|
  {
    if pairs != [] {
      NewItemsUploaded(NewItem(t, b, pairs[0].0, pairs[0].1), b, pairs[1..]);
    }
  }

  lemma {:induction false} FinishHonest(w: World, f: nat)
    requires Inv(w.t) && Honest(w) && Answered(w, f)
    ensures Honest(AfterFinish(w, f))
  {
    var fl := w.flights[f];
    assert fl in w.flights;
    if fl.sub.batch in w.t.batches && FinishSubmit(w.t, fl.sub, fl.outcomes).Ok? {
      SubmitVerdict(w.t, fl.sub, fl.outcomes);
    }
  }

  lemma {:induction false} AnswerHonest(w: World, f: nat, ok: bool)
    requires Honest(w) && Waiting(w, f)
    ensures Honest(AfterAnswer(w, f, ok))
  {
    assert w.flights[f] in w.flights;
  }

  lemma {:induction false} StepHonest(w: World, e: Event)
    requires Inv(w.t) && Honest(w) && AsksRunner(e)
    ensures Honest(Step(w, e))
  {
    match e
    case Create(ps, fs) =>
      if CreateBatch(w.t, ps, fs).Ok? {
        NewItemsUploaded(w.t.(batches := w.t.batches[w.t.nextId := Draft], nextId := w.t.nextId + 1), w.t.nextId, Pairs(ps, fs));
      }
    case Begin(s) =>
    case Answer(f, ok) => if Waiting(w, f) { AnswerHonest(w, f, ok); }
    case Finish(f) => if Answered(w, f) { FinishHonest(w, f); }
    case Retry(b, j, ok) =>
    case Patch(j, sel, sched, details) =>
    case RemoveItem(j) =>
    case RemoveBatch(b) =>
  }

  /** When every submit passes a publish runner, an item is published only if some runner call for that very
      item reported success: a lost, missing or failed outcome never becomes a publication. */
  lemma {:induction false} PublishedWasAcknowledged(w: World, events: seq<Event>)
    requires Inv(w.t) && Honest(w) && forall e <- events :: AsksRunner(e)
    ensures Honest(Run(w, events))
    decreases |events|
  {
    if events != [] {
      StepKeeps(w, events[0]);
      StepHonest(w, events[0]);
      PublishedWasAcknowledged(Step(w, events[0]), events[1..]);
    }
  }
}
