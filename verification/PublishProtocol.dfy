/** Every interleaving of the publishing transactions, and what all of them keep. */
module PublishProtocol {
  import opened Results
  import opened PublishStates
  import opened PublishTables

  // ---- the step system ----------------------------------------------------

  /** A submit_batch call after transaction A: the runner has answered for the first todo inputs. */
  datatype Flight = Flight(sub: Submission, inputs: seq<Id>, todo: nat, outcomes: map<Id, bool>, done: bool)

  /** acked collects the items for which some publish runner call reported success. */
  datatype World = World(t: Tables, flights: seq<Flight>, acked: set<Id>)

  datatype Event =
    | Create(packages: seq<Id>, platforms: seq<string>)
    | Begin(sub: Submission)
    | Answer(flight: nat, ok: bool)
    | Finish(flight: nat)
    | Retry(batch: Id, item: Id, ok: bool)
    | Patch(item: Id, selected: Option<bool>, schedule: Option<int>, details: Details)
    | RemoveItem(item: Id)
    | RemoveBatch(batch: Id)

  function Commit(t: Tables, r: Result<Tables, Error>): Tables {
    if r.Ok? then r.value else t
  }

  function AfterBegin(w: World, s: Submission): World {
    var a := BeginSubmit(w.t, s);
    if a.Ok? && a.value.Some? then w.(flights := w.flights + [Flight(s, a.value.value, 0, map[], false)]) else w
  }

  predicate Waiting(w: World, f: nat) {
    f < |w.flights| && !w.flights[f].done && w.flights[f].todo < |w.flights[f].inputs|
  }

  function AfterAnswer(w: World, f: nat, ok: bool): World
    requires Waiting(w, f)
  {
    var fl := w.flights[f];
    var i := fl.inputs[fl.todo];
    w.(flights := w.flights[f := fl.(todo := fl.todo + 1, outcomes := fl.outcomes[i := ok])],
       acked := if ok then w.acked + {i} else w.acked)
  }

  predicate Answered(w: World, f: nat) {
    f < |w.flights| && !w.flights[f].done && w.flights[f].todo >= |w.flights[f].inputs|
  }

  function AfterFinish(w: World, f: nat): World
    requires Answered(w, f)
  {
    var fl := w.flights[f];
    w.(t := Commit(w.t, FinishSubmit(w.t, fl.sub, fl.outcomes)), flights := w.flights[f := fl.(done := true)])
  }

  /** A retry gets as far as calling the publish runner. */
  predicate AsksToRetry(t: Tables, b: Id, i: Id) {
    b in t.batches && i in t.items && t.items[i].batch == b && t.items[i].status.PublishFailed?
  }

  /** One atomic step; an event that cannot happen leaves the world alone. */
  function Step(w: World, e: Event): World {
    match e
    case Create(ps, fs) => w.(t := Commit(w.t, CreateBatch(w.t, ps, fs)))
    case Begin(s) => AfterBegin(w, s)
    case Answer(f, ok) => if Waiting(w, f) then AfterAnswer(w, f, ok) else w
    case Finish(f) => if Answered(w, f) then AfterFinish(w, f) else w
    case Retry(b, i, ok) =>
      w.(t := Commit(w.t, RetryItem(w.t, b, i, ok)), acked := if ok && AsksToRetry(w.t, b, i) then w.acked + {i} else w.acked)
    case Patch(i, sel, sched, details) => w.(t := PatchItem(w.t, i, sel, sched, details))
    case RemoveItem(i) => w.(t := DeleteItem(w.t, i))
    case RemoveBatch(b) => w.(t := DeleteBatch(w.t, b))
  }

  function Run(w: World, events: seq<Event>): World
    decreases |events|
  {
    if events == [] then w else Run(Step(w, events[0]), events[1..])
  }

  function Start(packages: map<Id, Package>): World {
    World(EmptyTables(packages), [], {})
  }

  // ---- invariants ---------------------------------------------------------

  /** The successful attempts recorded for an item. */
  function Successes(a: seq<Attempt>, i: Id): nat {
    if a == [] then 0
    else Successes(a[..|a| - 1], i) + (if a[|a| - 1].item == i && Successful(a[|a| - 1].status) then 1 else 0)
  }

  /** All attempts recorded for an item, oldest first. */
  function AttemptsOf(a: seq<Attempt>, i: Id): seq<Attempt> {
    if a == [] then []
    else AttemptsOf(a[..|a| - 1], i) + (if a[|a| - 1].item == i then [a[|a| - 1]] else [])
  }

  predicate Settled(s: ItemStatus) {
    s.Uploaded? || s.ReviewReady? || s.Published? || s.PublishFailed?
  }

  predicate HasPublishedRecord(t: Tables, item: Item) {
    Record(item.batch, item.package, item.platform, RecordPublished) in t.records
  }

  predicate ItemOk(t: Tables, i: Id)
    requires i in t.items
  {
    var item := t.items[i];
    && i < t.nextId
    && item.batch in t.batches
    && item.package in t.packages
    && Settled(item.status)
    && Successes(t.attempts, i) == (if item.status.Published? then 1 else 0)
    && (item.status.Published? && t.packages[item.package].hasCase ==> HasPublishedRecord(t, item))
  }

  predicate AttemptOk(t: Tables, a: Attempt) {
    a.item in t.items && t.items[a.item].batch == a.batch
  }

  predicate Distinct(s: seq<Id>) {
    forall j, k :: 0 <= j < k < |s| ==> s[j] != s[k]
  }

  predicate Lists(order: seq<Id>, ids: set<Id>) {
    && Distinct(order)
    && (forall i <- order :: i in ids)
    && (forall i <- ids :: i in order)
  }

  predicate Inv(t: Tables) {
    && (forall i <- t.items.Keys :: ItemOk(t, i))
    && (forall a <- t.attempts :: AttemptOk(t, a))
    && Lists(t.order, t.items.Keys)
    && (forall b <- t.batches.Keys :: b < t.nextId && !t.batches[b].Processing?)
  }

  // ---- counting helpers ---------------------------------------------------

  lemma {:induction false} AppendAttempt(a: seq<Attempt>, x: Attempt, i: Id)
    ensures Successes(a + [x], i) == Successes(a, i) + (if x.item == i && Successful(x.status) then 1 else 0)
    ensures AttemptsOf(a + [x], i) == AttemptsOf(a, i) + (if x.item == i then [x] else [])
  {
    assert (a + [x])[..|a|] == a;
  }

  lemma {:induction false} NoAttemptNoSuccess(a: seq<Attempt>, i: Id)
    requires forall x <- a :: x.item != i
    ensures Successes(a, i) == 0
  {
    if a != [] {
      NoAttemptNoSuccess(a[..|a| - 1], i);
    }
  }

  lemma {:induction false} AttemptsOutsideKeeps(a: seq<Attempt>, gone: set<Id>, i: Id)
    ensures forall x <- AttemptsOutside(a, gone) :: x in a && x.item !in gone
    ensures i !in gone ==> Successes(AttemptsOutside(a, gone), i) == Successes(a, i)
    ensures i !in gone ==> AttemptsOf(AttemptsOutside(a, gone), i) == AttemptsOf(a, i)
  {
    if a != [] {
      AttemptsOutsideKeeps(a[..|a| - 1], gone, i);
      AppendAttempt(AttemptsOutside(a[..|a| - 1], gone), a[|a| - 1], i);
    }
  }

  lemma {:induction false} AttemptsOfOthersKeeps(t: Tables, a: seq<Attempt>, batch: Id, i: Id)
    requires forall x <- a :: AttemptOk(t, x)
    ensures forall x <- AttemptsOfOthers(a, batch) :: x in a && x.batch != batch
    ensures i in t.items && t.items[i].batch != batch ==>
              && Successes(AttemptsOfOthers(a, batch), i) == Successes(a, i)
              && AttemptsOf(AttemptsOfOthers(a, batch), i) == AttemptsOf(a, i)
  {
    if a != [] {
      AttemptsOfOthersKeeps(t, a[..|a| - 1], batch, i);
      assert AttemptOk(t, a[|a| - 1]);
      AppendAttempt(AttemptsOfOthers(a[..|a| - 1], batch), a[|a| - 1], i);
    }
  }

  lemma {:induction false} DistinctAppend(s: seq<Id>, x: Id)
    requires Distinct(s) && x !in s
    ensures Distinct(s + [x])
  {
  }

  lemma {:induction false} OrderOutsideLists(order: seq<Id>, gone: set<Id>, ids: set<Id>)
    requires Lists(order, ids)
    ensures Lists(OrderOutside(order, gone), ids - gone)
  {
    if order != [] {
      var last := order[|order| - 1];
      var front := order[..|order| - 1];
      forall i | i in ids - {last} ensures i in front {
        assert i in order;
      }
      OrderOutsideLists(front, gone, ids - {last});
      DistinctAppend(OrderOutside(front, gone), last);
    }
  }

  // ---- each transaction keeps the invariant -------------------------------

  lemma {:induction false} RecordItemRow(t: Tables, b: Id, i: Id, row: Item, attempt: AttemptStatus, j: Id)
    requires i in t.items && !t.items[i].status.Published? && j in t.items && ItemOk(t, i) && ItemOk(t, j)
    requires row.batch == t.items[i].batch == b && row.package == t.items[i].package
    requires Settled(row.status) && (Successful(attempt) <==> row.status.Published?)
    ensures ItemOk(RecordItem(t, b, i, row, attempt), j)
  {
    AppendAttempt(t.attempts, Attempt(t.nextId, b, i, attempt), j);
    if j == i {
      var x := Record(row.batch, row.package, row.platform, RecordStatusOf(row.status));
      assert (t.records + [x])[|t.records|] == x;
    }
  }

  /** Recording an unpublished item under matching item and attempt verdicts. */
  lemma {:induction false} RecordItemKeeps(t: Tables, b: Id, i: Id, row: Item, attempt: AttemptStatus)
    requires Inv(t) && i in t.items && !t.items[i].status.Published?
    requires row.batch == t.items[i].batch == b && row.package == t.items[i].package
    requires Settled(row.status) && (Successful(attempt) <==> row.status.Published?)
    ensures Inv(RecordItem(t, b, i, row, attempt))
  {
    var t' := RecordItem(t, b, i, row, attempt);
    assert t'.items.Keys == t.items.Keys;
    forall j | j in t'.items.Keys ensures ItemOk(t', j) {
      RecordItemRow(t, b, i, row, attempt, j);
    }
    forall a | a in t'.attempts ensures AttemptOk(t', a) {
      assert a == Attempt(t.nextId, b, i, attempt) || AttemptOk(t, a);
    }
  }

  lemma {:induction false} SubmitItemKeeps(t: Tables, s: Submission, outcomes: map<Id, bool>, i: Id)
    requires Inv(t) && i in t.items && t.items[i].batch == s.batch
    requires SubmitItem(t, s, outcomes, i).Ok?
    ensures Inv(SubmitItem(t, s, outcomes, i).value)
  {
    var reported := Reported(outcomes, i);
    var status := t.items[i].status;
    DriveOutcome(status, s.mode, reported);
    AttemptMatchesItem(status, s.mode, reported);
    RecordItemKeeps(t, s.batch, i, DrivenRow(t.items[i], s.mode, Drive(status, s.mode, reported).value),
                    AttemptStatusOf(s.mode, reported));
  }

  lemma {:induction false} SubmitItemsKeeps(t: Tables, s: Submission, outcomes: map<Id, bool>, ids: seq<Id>, failed: bool)
    requires Inv(t) && forall i <- ids :: i in t.items && t.items[i].batch == s.batch
    requires SubmitItems(t, s, outcomes, ids, failed).Ok?
    ensures Inv(SubmitItems(t, s, outcomes, ids, failed).value.0)
    decreases |ids|
  {
    if ids != [] {
      SubmitItemKeeps(t, s, outcomes, ids[0]);
      var t' := SubmitItem(t, s, outcomes, ids[0]).value;
      SubmitItemsKeeps(t', s, outcomes, ids[1..], failed || t'.items[ids[0]].status.PublishFailed?);
    }
  }

  lemma {:induction false} BatchUpdateKeeps(t: Tables, b: Id, st: BatchStatus)
    requires Inv(t) && b in t.batches && !st.Processing?
    ensures Inv(t.(batches := t.batches[b := st]))
  {
    var t' := t.(batches := t.batches[b := st]);
    forall j | j in t'.items.Keys ensures ItemOk(t', j) { assert ItemOk(t, j); }
    forall a | a in t'.attempts ensures AttemptOk(t', a) { assert AttemptOk(t, a); }
  }

  lemma {:induction false} SubmitItemsBatches(t: Tables, s: Submission, outcomes: map<Id, bool>, ids: seq<Id>, failed: bool)
    requires forall i <- ids :: i in t.items
    requires SubmitItems(t, s, outcomes, ids, failed).Ok?
    ensures SubmitItems(t, s, outcomes, ids, failed).value.0.batches == t.batches
    decreases |ids|
  {
    if ids != [] {
      var t' := SubmitItem(t, s, outcomes, ids[0]).value;
      SubmitItemsBatches(t', s, outcomes, ids[1..], failed || t'.items[ids[0]].status.PublishFailed?);
    }
  }

  lemma {:induction false} FinishSubmitKeeps(t: Tables, s: Submission, outcomes: map<Id, bool>)
    requires Inv(t) && FinishSubmit(t, s, outcomes).Ok?
    ensures Inv(FinishSubmit(t, s, outcomes).value)
  {
    if s.batch in t.batches {
      var t1 := t.(batches := t.batches[s.batch := OpenBatch(t.batches[s.batch], s.mode).value]);
      BatchUpdateKeeps(t, s.batch, t1.batches[s.batch]);
      var ids := Selected(t1.items, t1.order, s.batch);
      SelectedAreRows(t1.items, t1.order, s.batch);
      SubmitItemsKeeps(t1, s, outcomes, ids, false);
      SubmitItemsBatches(t1, s, outcomes, ids, false);
      var done := SubmitItems(t1, s, outcomes, ids, false).value;
      BatchUpdateKeeps(done.0, s.batch, PartialFailed);
      BatchUpdateKeeps(done.0, s.batch, Completed);
    }
  }

  lemma {:induction false} RetryKeeps(t: Tables, b: Id, i: Id, ok: bool)
    requires Inv(t) && RetryItem(t, b, i, ok).Ok?
    ensures Inv(RetryItem(t, b, i, ok).value)
  {
    if b in t.batches && i in t.items && t.items[i].batch == b {
      RecordItemKeeps(t, b, i, t.items[i].(status := Published), Delivered);
      var t1 := RecordItem(t, b, i, t.items[i].(status := Published), Delivered);
      assert ItemOk(t, i);
      BatchUpdateKeeps(t1, b, AfterRetry(t.batches[b], AllPublished(t1.items, b)).value);
    }
  }

  lemma {:induction false} NewItemKeeps(t: Tables, b: Id, p: Id, platform: string)
    requires Inv(t) && b in t.batches && p in t.packages
    ensures Inv(NewItem(t, b, p, platform))
  {
    var t' := NewItem(t, b, p, platform);
    forall a | a in t'.attempts ensures AttemptOk(t', a) { assert AttemptOk(t, a) && ItemOk(t, a.item); }
    forall x | x in t.attempts ensures x.item != t.nextId { assert AttemptOk(t, x) && ItemOk(t, x.item); }
    NoAttemptNoSuccess(t.attempts, t.nextId);
    forall j | j in t'.items.Keys ensures ItemOk(t', j) {
      if j != t.nextId { assert ItemOk(t, j); }
    }
    forall j | j in t.order ensures j != t.nextId { assert ItemOk(t, j); }
    DistinctAppend(t.order, t.nextId);
    forall j | j in t'.items.Keys ensures j in t'.order {
      if j == t.nextId { assert t'.order[|t.order|] == j; }
    }
  }

  lemma {:induction false} NewItemsKeeps(t: Tables, b: Id, pairs: seq<(Id, string)>)
    requires Inv(t) && b in t.batches && forall p <- pairs :: p.0 in t.packages
    ensures Inv(NewItems(t, b, pairs))
    decreases |pairs|
  {
    if pairs != [] {
      NewItemKeeps(t, b, pairs[0].0, pairs[0].1);
      NewItemsKeeps(NewItem(t, b, pairs[0].0, pairs[0].1), b, pairs[1..]);
    }
  }

  lemma {:induction false} CreateKeeps(t: Tables, ps: seq<Id>, fs: seq<string>)
    requires Inv(t) && CreateBatch(t, ps, fs).Ok?
    ensures Inv(CreateBatch(t, ps, fs).value)
  {
    var t1 := t.(batches := t.batches[t.nextId := Draft], nextId := t.nextId + 1);
    forall j | j in t1.items.Keys ensures ItemOk(t1, j) { assert ItemOk(t, j); }
    forall a | a in t1.attempts ensures AttemptOk(t1, a) { assert AttemptOk(t, a); }
    assert Inv(t1);
    NewItemsKeeps(t1, t.nextId, Pairs(ps, fs));
  }

  lemma {:induction false} PatchKeeps(t: Tables, i: Id, sel: Option<bool>, sched: Option<int>, details: Details)
    requires Inv(t)
    ensures Inv(PatchItem(t, i, sel, sched, details))
  {
    if i in t.items {
      var t' := PatchItem(t, i, sel, sched, details);
      assert t'.items.Keys == t.items.Keys;
      forall j | j in t'.items.Keys ensures ItemOk(t', j) { assert ItemOk(t, j); }
      forall a | a in t'.attempts ensures AttemptOk(t', a) { assert AttemptOk(t, a); }
    }
  }

  lemma {:induction false} DeleteItemKeeps(t: Tables, i: Id)
    requires Inv(t)
    ensures Inv(DeleteItem(t, i))
  {
    if i in t.items {
      var t' := DeleteItem(t, i);
      OrderOutsideLists(t.order, {i}, t.items.Keys);
      assert t'.items.Keys == t.items.Keys - {i};
      forall j | j in t'.items.Keys ensures ItemOk(t', j) {
        AttemptsOutsideKeeps(t.attempts, {i}, j);
        assert ItemOk(t, j);
      }
      forall a | a in t'.attempts ensures AttemptOk(t', a) {
        AttemptsOutsideKeeps(t.attempts, {i}, i);
        assert AttemptOk(t, a);
      }
    }
  }

  lemma {:induction false} DeleteBatchKeeps(t: Tables, b: Id)
    requires Inv(t)
    ensures Inv(DeleteBatch(t, b))
  {
    if b in t.batches {
      var t' := DeleteBatch(t, b);
      OrderOutsideLists(t.order, ItemsOf(t.items, b), t.items.Keys);
      assert t'.items.Keys == t.items.Keys - ItemsOf(t.items, b);
      forall j | j in t'.items.Keys ensures ItemOk(t', j) {
        AttemptsOfOthersKeeps(t, t.attempts, b, j);
        assert ItemOk(t, j);
      }
      forall a | a in t'.attempts ensures AttemptOk(t', a) {
        AttemptsOfOthersKeeps(t, t.attempts, b, a.item);
        assert AttemptOk(t, a);
      }
    }
  }

  lemma {:induction false} StepKeeps(w: World, e: Event)
    requires Inv(w.t)
    ensures Inv(Step(w, e).t)
  {
    match e
    case Create(ps, fs) => if CreateBatch(w.t, ps, fs).Ok? { CreateKeeps(w.t, ps, fs); }
    case Begin(s) =>
    case Answer(f, ok) =>
    case Finish(f) =>
      if Answered(w, f) && FinishSubmit(w.t, w.flights[f].sub, w.flights[f].outcomes).Ok? {
        FinishSubmitKeeps(w.t, w.flights[f].sub, w.flights[f].outcomes);
      }
    case Retry(b, i, ok) => if RetryItem(w.t, b, i, ok).Ok? { RetryKeeps(w.t, b, i, ok); }
    case Patch(i, sel, sched, details) => PatchKeeps(w.t, i, sel, sched, details);
    case RemoveItem(i) => DeleteItemKeeps(w.t, i);
    case RemoveBatch(b) => DeleteBatchKeeps(w.t, b);
  }

  lemma {:induction false} RunKeeps(w: World, events: seq<Event>)
    requires Inv(w.t)
    ensures Inv(Run(w, events).t)
    decreases |events|
  {
    if events != [] {
      StepKeeps(w, events[0]);
      RunKeeps(Step(w, events[0]), events[1..]);
    }
  }

  /** At most once, in every interleaving: a live item has exactly one successful attempt when it is
      published and none otherwise, and no intermediate status is ever committed. */
  lemma {:induction false} OneSuccessPerPublishedItem(packages: map<Id, Package>, events: seq<Event>, i: Id)
    requires i in Run(Start(packages), events).t.items
    ensures var t := Run(Start(packages), events).t;
            && Successes(t.attempts, i) == (if t.items[i].status.Published? then 1 else 0)
            && Settled(t.items[i].status)
            && t.items[i].package in t.packages
            && (t.items[i].status.Published? && t.packages[t.items[i].package].hasCase ==> HasPublishedRecord(t, t.items[i]))
  {
    RunKeeps(Start(packages), events);
    assert ItemOk(Run(Start(packages), events).t, i);
  }
}
