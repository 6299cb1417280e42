/** The publishing tables and one function per repository transaction. An error stands for a raise
    inside the transaction: nothing is committed. */
module PublishTables {
  import opened Results
  import opened PublishStates

  type Id = nat

  /** A descriptive field: text, or tags already normalised. */
  datatype Detail = Text(text: string) | Tags(tags: seq<string>)

  /** The descriptive fields an item has, by name. */
  type Details = map<string, Detail>

  datatype Item = Item(
    batch: Id, package: Id, platform: string, selected: bool, status: ItemStatus, scheduledAt: Option<int>, details: Details)
  datatype Attempt = Attempt(id: Id, batch: Id, item: Id, status: AttemptStatus)
  datatype Record = Record(batch: Id, package: Id, platform: string, status: RecordStatus)
  datatype Package = Package(hasCase: bool, scheduledAt: Option<int>, defaults: Details)

  /** order lists the live items by (created_at, id), the order every query uses. */
  datatype Tables = Tables(
    packages: map<Id, Package>, batches: map<Id, BatchStatus>, items: map<Id, Item>, order: seq<Id>,
    attempts: seq<Attempt>, records: seq<Record>, nextId: Id)

  datatype Submission = Submission(batch: Id, mode: Mode)

  function EmptyTables(packages: map<Id, Package>): Tables {
    Tables(packages, map[], map[], [], [], [], 0)
  }

  // ---- create_batch -------------------------------------------------------

  function NewItem(t: Tables, batch: Id, package: Id, platform: string): Tables
    requires package in t.packages
  {
    t.(items := t.items[t.nextId := Item(batch, package, platform, true, Uploaded, t.packages[package].scheduledAt, t.packages[package].defaults)],
       order := t.order + [t.nextId],
       nextId := t.nextId + 1)
  }

  /** One item per (package, platform) pair, packages outermost. */
  function NewItems(t: Tables, batch: Id, pairs: seq<(Id, string)>): Tables
    requires forall p <- pairs :: p.0 in t.packages
    decreases |pairs|
  {
    if pairs == [] then t else NewItems(NewItem(t, batch, pairs[0].0, pairs[0].1), batch, pairs[1..])
  }

  function Pairs(packages: seq<Id>, platforms: seq<string>): (ps: seq<(Id, string)>)
    ensures forall p <- ps :: p.0 in packages
  {
    if packages == [] then []
    else seq(|platforms|, i requires 0 <= i < |platforms| => (packages[0], platforms[i])) + Pairs(packages[1..], platforms)
  }

  function CreateBatch(t: Tables, packages: seq<Id>, platforms: seq<string>): Result<Tables, Error> {
    if packages == [] || platforms == [] then Err(InvalidOptions)
    else if exists p <- packages :: p !in t.packages then Err(ArtifactMissing)
    else Ok(NewItems(t.(batches := t.batches[t.nextId := Draft], nextId := t.nextId + 1), t.nextId, Pairs(packages, platforms)))
  }

  // ---- reads --------------------------------------------------------------

  /** The selected items of a batch, in listing order. */
  function Selected(items: map<Id, Item>, order: seq<Id>, batch: Id): seq<Id> {
    if order == [] then []
    else
      var rest := Selected(items, order[1..], batch);
      if order[0] in items && items[order[0]].batch == batch && items[order[0]].selected
      then [order[0]] + rest else rest
  }

  // ---- submit_batch, transaction A ----------------------------------------

  /** None when the batch is gone; otherwise the items handed to the publish runner. */
  function BeginSubmit(t: Tables, s: Submission): Result<Option<seq<Id>>, Error> {
    if s.batch !in t.batches then Ok(None)
    else
      var chosen := Selected(t.items, t.order, s.batch);
      if chosen == [] then Err(InvalidOptions)
      else if exists i <- chosen :: i in t.items && !Submittable(t.items[i].status) then Err(InvalidOptions)
      else Ok(Some(if s.mode.UsesRunner() then chosen else []))
  }

  // ---- submit_batch, transaction B ----------------------------------------

  function Reported(outcomes: map<Id, bool>, i: Id): Option<bool> {
    if i in outcomes then Some(outcomes[i]) else None
  }

  function AddRecord(t: Tables, row: Item): seq<Record> {
    if row.package in t.packages && t.packages[row.package].hasCase
    then t.records + [Record(row.batch, row.package, row.platform, RecordStatusOf(row.status))]
    else t.records
  }

  /** Write one item's new row, a publish record when its package has a case, and an attempt. */
  function RecordItem(t: Tables, batch: Id, i: Id, row: Item, attempt: AttemptStatus): Tables {
    t.(items := t.items[i := row],
       records := AddRecord(t, row),
       attempts := t.attempts + [Attempt(t.nextId, batch, i, attempt)],
       nextId := t.nextId + 1)
  }

  function DrivenRow(item: Item, mode: Mode, status: ItemStatus): Item {
    item.(status := status,
          scheduledAt := if mode.schedule.Some? && !mode.dryRun then mode.schedule else item.scheduledAt)
  }

  function SubmitItem(t: Tables, s: Submission, outcomes: map<Id, bool>, i: Id): Result<Tables, Error>
    requires i in t.items
  {
    var driven := Drive(t.items[i].status, s.mode, Reported(outcomes, i));
    if driven.Err? then Err(driven.error)
    else Ok(RecordItem(t, s.batch, i, DrivenRow(t.items[i], s.mode, driven.value),
                       AttemptStatusOf(s.mode, Reported(outcomes, i))))
  }

  /** The loop of transaction B; failed accumulates any_failed. */
  function SubmitItems(t: Tables, s: Submission, outcomes: map<Id, bool>, ids: seq<Id>, failed: bool): Result<(Tables, bool), Error>
    requires forall i <- ids :: i in t.items
    decreases |ids|
  {
    if ids == [] then Ok((t, failed))
    else
      var one := SubmitItem(t, s, outcomes, ids[0]);
      if one.Err? then Err(one.error)
      else SubmitItems(one.value, s, outcomes, ids[1..], failed || one.value.items[ids[0]].status.PublishFailed?)
  }

  lemma {:induction false} SelectedAreRows(items: map<Id, Item>, order: seq<Id>, batch: Id)
    ensures forall i <- Selected(items, order, batch) ::
              i in order && i in items && items[i].batch == batch && items[i].selected
    ensures forall i <- order :: i in items && items[i].batch == batch && items[i].selected ==>
              i in Selected(items, order, batch)
  {
    if order != [] { SelectedAreRows(items, order[1..], batch); }
  }

  function FinishSubmit(t: Tables, s: Submission, outcomes: map<Id, bool>): Result<Tables, Error> {
    if s.batch !in t.batches then Ok(t)
    else
      var gate := OpenBatch(t.batches[s.batch], s.mode);
      if gate.Err? then Err(gate.error)
      else
        var t1 := t.(batches := t.batches[s.batch := gate.value]);
        var ids := Selected(t1.items, t1.order, s.batch);
        SelectedAreRows(t1.items, t1.order, s.batch);
        var done := SubmitItems(t1, s, outcomes, ids, false);
        if done.Err? then Err(done.error)
        else if !s.mode.UsesRunner() then Ok(done.value.0)
        else
          var final := if done.value.1 then PartialFailed else Completed;
          if !BatchMoves(Sending, final) then Err(InvalidTransition)
          else Ok(done.value.0.(batches := done.value.0.batches[s.batch := final]))
  }

  // ---- retry_item ---------------------------------------------------------

  predicate AllPublished(items: map<Id, Item>, batch: Id) {
    forall i <- items.Keys :: items[i].batch == batch ==> items[i].status.Published?
  }

  /** The batch status after a successful retry. */
  function AfterRetry(s: BatchStatus, allPublished: bool): Result<BatchStatus, Error> {
    if s.PartialFailed? && !BatchMoves(s, Sending) then Err(InvalidTransition)
    else
      var s1 := if s.PartialFailed? then Sending else s;
      if s1.Sending? && allPublished then
        if BatchMoves(s1, Completed) then Ok(Completed) else Err(InvalidTransition)
      else Ok(s1)
  }

  /** ok is what the publish runner reports; the runner is called inside the transaction. */
  function RetryItem(t: Tables, batch: Id, i: Id, ok: bool): Result<Tables, Error> {
    if batch !in t.batches || i !in t.items || t.items[i].batch != batch then Ok(t)
    else if !t.items[i].status.PublishFailed? then Err(InvalidOptions)
    else if !ok then Err(InvalidOptions)
    else if !ItemMoves(PublishFailed, Publishing) || !ItemMoves(Publishing, Published) then Err(InvalidTransition)
    else
      var t1 := RecordItem(t, batch, i, t.items[i].(status := Published), Delivered);
      var after := AfterRetry(t.batches[batch], AllPublished(t1.items, batch));
      if after.Err? then Err(after.error) else Ok(t1.(batches := t1.batches[batch := after.value]))
  }

  // ---- patch_item, delete_item, delete_batch ------------------------------

  /** A field missing from the patch is not written. */
  function PatchItem(t: Tables, i: Id, selected: Option<bool>, schedule: Option<int>, details: Details): Tables {
    if i !in t.items then t
    else
      var item := t.items[i];
      t.(items := t.items[i := item.(
                    selected := if selected.Some? then selected.value else item.selected,
                    scheduledAt := if schedule.Some? then schedule else item.scheduledAt,
                    details := item.details + details)])
  }

  /** The attempts a bulk delete keeps. */
  function AttemptsOutside(a: seq<Attempt>, gone: set<Id>): seq<Attempt> {
    if a == [] then []
    else
      var rest := AttemptsOutside(a[..|a| - 1], gone);
      if a[|a| - 1].item in gone then rest else rest + [a[|a| - 1]]
  }

  function OrderOutside(order: seq<Id>, gone: set<Id>): seq<Id> {
    if order == [] then []
    else
      var rest := OrderOutside(order[..|order| - 1], gone);
      if order[|order| - 1] in gone then rest else rest + [order[|order| - 1]]
  }

  function DropItems(t: Tables, gone: set<Id>): Tables {
    t.(items := t.items - gone, order := OrderOutside(t.order, gone))
  }

  function DeleteItem(t: Tables, i: Id): Tables {
    if i !in t.items then t
    else DropItems(t.(attempts := AttemptsOutside(t.attempts, {i})), {i})
  }

  /** Deletes attempts by their batch column and items by theirs. */
  function AttemptsOfOthers(a: seq<Attempt>, batch: Id): seq<Attempt> {
    if a == [] then []
    else
      var rest := AttemptsOfOthers(a[..|a| - 1], batch);
      if a[|a| - 1].batch == batch then rest else rest + [a[|a| - 1]]
  }

  function ItemsOf(items: map<Id, Item>, batch: Id): set<Id> {
    set i | i in items && items[i].batch == batch
  }

  function DeleteBatch(t: Tables, batch: Id): Tables {
    if batch !in t.batches then t
    else DropItems(t.(attempts := AttemptsOfOthers(t.attempts, batch), batches := t.batches - {batch}), ItemsOf(t.items, batch))
  }
}
