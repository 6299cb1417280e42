/** The repository object whose transactions rewrite the publishing tables, statement by statement. */
module PublishingRepository {
  import opened Results
  import opened PublishStates
  import opened PublishTables

  /** Funnel events staged for persistence after a commit. */
  datatype Funnel = StartedEvent(attempt: Id) | PublishedEvent(attempt: Id) | FailedEvent(attempt: Id)

  function EventsOf(a: Attempt): seq<Funnel> {
    [StartedEvent(a.id)] +
    (if a.status.Delivered? then [PublishedEvent(a.id)] else if a.status.Failed? then [FailedEvent(a.id)] else [])
  }

  function Staged(a: seq<Attempt>): seq<Funnel> {
    if a == [] then [] else Staged(a[..|a| - 1]) + EventsOf(a[|a| - 1])
  }

  lemma {:induction false} EventsExactly(a: Attempt, x: Id)
    ensures StartedEvent(x) in EventsOf(a) <==> a.id == x
    ensures PublishedEvent(x) in EventsOf(a) <==> a.id == x && a.status.Delivered?
    ensures FailedEvent(x) in EventsOf(a) <==> a.id == x && a.status.Failed?
  {
    assert EventsOf(a)[0] == StartedEvent(a.id);
    if a.status.Delivered? { assert EventsOf(a)[1] == PublishedEvent(a.id); }
    if a.status.Failed? { assert EventsOf(a)[1] == FailedEvent(a.id); }
  }

  /** A published event is staged exactly for the attempts recorded as published, and a failed one exactly for those
      recorded as failed: a scheduled attempt stages neither. */
  lemma {:induction false} StagedExactly(a: seq<Attempt>, x: Id)
    ensures PublishedEvent(x) in Staged(a) <==> exists k :: 0 <= k < |a| && a[k].id == x && a[k].status.Delivered?
    ensures FailedEvent(x) in Staged(a) <==> exists k :: 0 <= k < |a| && a[k].id == x && a[k].status.Failed?
    ensures StartedEvent(x) in Staged(a) <==> exists k :: 0 <= k < |a| && a[k].id == x
  {
    if a != [] {
      var front, last := a[..|a| - 1], a[|a| - 1];
      StagedExactly(front, x);
      EventsExactly(last, x);
      assert forall k :: 0 <= k < |front| ==> front[k] == a[k];
      assert Staged(a) == Staged(front) + EventsOf(last);
    }
  }

  method SelectedRows(items: map<Id, Item>, order: seq<Id>, batch: Id) returns (ids: seq<Id>)
    ensures ids == Selected(items, order, batch)
  {
    ids := [];
    for k := 0 to |order|
      invariant Selected(items, order, batch) == ids + Selected(items, order[k..], batch)
    {
      assert order[k..][1..] == order[k + 1..];
      if order[k] in items && items[order[k]].batch == batch && items[order[k]].selected {
        ids := ids + [order[k]];
      }
    }
  }

  /** The status walk of one item in transaction B. */
  method DriveItem(status: ItemStatus, mode: Mode, reported: Option<bool>) returns (r: Result<ItemStatus, Error>)
    ensures r == Drive(status, mode, reported)
  {
    var current := status;
    if !Ready(current) {
      if !InPipeline(current) { return Err(InvalidOptions); }
      while !current.CoverRunning?
        invariant InPipeline(current) && FinishPipeline(status) == FinishPipeline(current)
        decreases StagesLeft(current)
      {
        var next := NextStage(current);
        if !ItemMoves(current, next) { return Err(InvalidTransition); }
        current := next;
      }
    }
    if mode.dryRun {
      if !ItemMoves(current, ReviewReady) { return Err(InvalidTransition); }
      return Ok(ReviewReady);
    }
    if !Ready(current) {
      if !ItemMoves(current, ReviewReady) { return Err(InvalidTransition); }
      current := ReviewReady;
    }
    if !ItemMoves(current, Publishing) { return Err(InvalidTransition); }
    current := if mode.UsesRunner() && reported != Some(true) then PublishFailed else Published;
    if !ItemMoves(Publishing, current) { return Err(InvalidTransition); }
    return Ok(current);
  }

  /** The nested loops of create_batch. */
  method InsertItems(begun: Tables, batch: Id, packageIds: seq<Id>, platforms: seq<string>) returns (session: Tables)
    requires forall p <- packageIds :: p in begun.packages
    ensures session == NewItems(begun, batch, Pairs(packageIds, platforms))
  {
    session := begun;
    for p := 0 to |packageIds|
      invariant session.packages == begun.packages
      invariant NewItems(begun, batch, Pairs(packageIds, platforms)) == NewItems(session, batch, Pairs(packageIds[p..], platforms))
    {
      ghost var row := seq(|platforms|, i requires 0 <= i < |platforms| => (packageIds[p], platforms[i]));
      ghost var later := Pairs(packageIds[p + 1..], platforms);
      assert packageIds[p..][1..] == packageIds[p + 1..];
      for f := 0 to |platforms|
        invariant session.packages == begun.packages
        invariant NewItems(begun, batch, Pairs(packageIds, platforms)) == NewItems(session, batch, row[f..] + later)
      {
        assert (row[f..] + later)[1..] == row[f + 1..] + later;
        session := NewItem(session, batch, packageIds[p], platforms[f]);
      }
      assert row[|platforms|..] + later == later;
    }
  }

  lemma {:induction false} StagedAppend(a: seq<Attempt>, x: Attempt)
    ensures Staged(a + [x]) == Staged(a) + EventsOf(x)
  {
    assert (a + [x])[..|a|] == a;
  }

  lemma {:induction false} StagedGrows(begun: seq<Attempt>, now: seq<Attempt>, x: Attempt)
    requires begun <= now
    ensures begun <= now + [x] && Staged((now + [x])[|begun|..]) == Staged(now[|begun|..]) + EventsOf(x)
  {
    assert (now + [x])[|begun|..] == now[|begun|..] + [x];
    StagedAppend(now[|begun|..], x);
  }

  lemma {:induction false} StagedOne(begun: seq<Attempt>, x: Attempt)
    ensures begun <= begun + [x] && Staged((begun + [x])[|begun|..]) == EventsOf(x)
  {
    assert begun[|begun|..] == [] && [] + EventsOf(x) == EventsOf(x);
    StagedGrows(begun, begun, x);
  }

  /** The item loop of transaction B, on the rows of the open session. */
  method SubmitRows(begun: Tables, s: Submission, outcomes: map<Id, bool>, chosen: seq<Id>)
    returns (r: Result<(Tables, bool), Error>, staged: seq<Funnel>)
    requires forall i <- chosen :: i in begun.items
    ensures r == SubmitItems(begun, s, outcomes, chosen, false)
    ensures r.Ok? ==> begun.attempts <= r.value.0.attempts && staged == Staged(r.value.0.attempts[|begun.attempts|..])
  {
    var session, anyFailed := begun, false;
    staged := [];
    for k := 0 to |chosen|
      invariant session.items.Keys == begun.items.Keys
      invariant begun.attempts <= session.attempts && staged == Staged(session.attempts[|begun.attempts|..])
      invariant SubmitItems(begun, s, outcomes, chosen, false) == SubmitItems(session, s, outcomes, chosen[k..], anyFailed)
    {
      var i := chosen[k];
      assert chosen[k..][1..] == chosen[k + 1..];
      var reported := Reported(outcomes, i);
      var driven := DriveItem(session.items[i].status, s.mode, reported);
      if driven.Err? { return Err(driven.error), []; }
      if driven.value.PublishFailed? { anyFailed := true; }
      var attempt := AttemptStatusOf(s.mode, reported);
      var added := Attempt(session.nextId, s.batch, i, attempt);
      StagedGrows(begun.attempts, session.attempts, added);
      session := RecordItem(session, s.batch, i, DrivenRow(session.items[i], s.mode, driven.value), attempt);
      staged := staged + EventsOf(added);
    }
    return Ok((session, anyFailed)), staged;
  }

  class Repository {
    var packages: map<Id, Package>
    var batches: map<Id, BatchStatus>
    var items: map<Id, Item>
    var order: seq<Id>
    var attempts: seq<Attempt>
    var records: seq<Record>
    var nextId: Id

    /** The committed tables. */
    function Db(): Tables
      reads this
    {
      Tables(packages, batches, items, order, attempts, records, nextId)
    }

    method Commit(session: Tables)
      modifies this
      ensures Db() == session
    {
      packages, batches, items, order := session.packages, session.batches, session.items, session.order;
      attempts, records, nextId := session.attempts, session.records, session.nextId;
    }

    method CreateBatch(packageIds: seq<Id>, platforms: seq<string>) returns (raised: Option<Error>)
      modifies this
      ensures match PublishTables.CreateBatch(old(Db()), packageIds, platforms)
              case Ok(t) => raised == None && Db() == t
              case Err(e) => raised == Some(e) && Db() == old(Db())
    {
      if packageIds == [] || platforms == [] { return Some(InvalidOptions); }
      for k := 0 to |packageIds|
        invariant Db() == old(Db()) && forall j :: 0 <= j < k ==> packageIds[j] in packages
      {
        if packageIds[k] !in packages { return Some(ArtifactMissing); }
      }
      var session := Db();
      var batch := session.nextId;
      session := session.(batches := session.batches[batch := Draft], nextId := batch + 1);
      session := InsertItems(session, batch, packageIds, platforms);
      Commit(session);
      return None;
    }

    /** Transaction A of submit_batch: reads only. */
    method BeginSubmit(s: Submission) returns (r: Result<Option<seq<Id>>, Error>)
      ensures r == PublishTables.BeginSubmit(Db(), s)
    {
      if s.batch !in batches { return Ok(None); }
      var chosen := SelectedRows(items, order, s.batch);
      if chosen == [] { return Err(InvalidOptions); }
      var inputs: seq<Id> := [];
      for k := 0 to |chosen|
        invariant forall j :: 0 <= j < k ==> chosen[j] in items ==> Submittable(items[chosen[j]].status)
        invariant inputs == if s.mode.UsesRunner() then chosen[..k] else []
      {
        if chosen[k] in items && !Submittable(items[chosen[k]].status) { return Err(InvalidOptions); }
        if s.mode.UsesRunner() { inputs := inputs + [chosen[k]]; }
      }
      assert chosen[..|chosen|] == chosen;
      return Ok(Some(inputs));
    }

    /** Transaction B of submit_batch: a raise leaves the tables as they were. */
    method FinishSubmit(s: Submission, outcomes: map<Id, bool>) returns (raised: Option<Error>, staged: seq<Funnel>)
      modifies this
      ensures match PublishTables.FinishSubmit(old(Db()), s, outcomes)
              case Ok(t) => raised == None && Db() == t
              case Err(e) => raised == Some(e) && Db() == old(Db())
      ensures raised == None ==> old(attempts) <= attempts && staged == Staged(attempts[|old(attempts)|..])
    {
      staged := [];
      if s.batch !in batches { return None, staged; }
      var gate := OpenBatch(batches[s.batch], s.mode);
      if gate.Err? { return Some(gate.error), staged; }
      var session := Db();
      session := session.(batches := session.batches[s.batch := gate.value]);
      var chosen := SelectedRows(session.items, session.order, s.batch);
      SelectedAreRows(session.items, session.order, s.batch);
      var done;
      done, staged := SubmitRows(session, s, outcomes, chosen);
      if done.Err? { return Some(done.error), []; }
      session := done.value.0;
      if s.mode.UsesRunner() {
        var final := if done.value.1 then PartialFailed else Completed;
        if !BatchMoves(Sending, final) { return Some(InvalidTransition), []; }
        session := session.(batches := session.batches[s.batch := final]);
      }
      Commit(session);
      return None, staged;
    }

    method RetryItem(batch: Id, item: Id, ok: bool) returns (raised: Option<Error>, staged: seq<Funnel>)
      modifies this
      ensures match PublishTables.RetryItem(old(Db()), batch, item, ok)
              case Ok(t) => raised == None && Db() == t
              case Err(e) => raised == Some(e) && Db() == old(Db())
      ensures raised == None ==> old(attempts) <= attempts && staged == Staged(attempts[|old(attempts)|..])
    {
      staged := [];
      if batch !in batches || item !in items || items[item].batch != batch { return None, staged; }
      if !items[item].status.PublishFailed? || !ok { return Some(InvalidOptions), staged; }
      if !ItemMoves(PublishFailed, Publishing) || !ItemMoves(Publishing, Published) { return Some(InvalidTransition), staged; }
      var added := Attempt(nextId, batch, item, Delivered);
      var session := RecordItem(Db(), batch, item, items[item].(status := Published), Delivered);
      var status := session.batches[batch];
      if status.PartialFailed? {
        if !BatchMoves(status, Sending) { return Some(InvalidTransition), staged; }
        status := Sending;
      }
      if status.Sending? && AllPublished(session.items, batch) {
        if !BatchMoves(status, Completed) { return Some(InvalidTransition), staged; }
        status := Completed;
      }
      StagedOne(attempts, added);
      staged := [StartedEvent(added.id), PublishedEvent(added.id)];
      Commit(session.(batches := session.batches[batch := status]));
      return None, staged;
    }

    method PatchItem(item: Id, selected: Option<bool>, schedule: Option<int>, details: Details)
      modifies this`items
      ensures Db() == PublishTables.PatchItem(old(Db()), item, selected, schedule, details)
    {
      if item in items {
        if selected.Some? { items := items[item := items[item].(selected := selected.value)]; }
        if schedule.Some? { items := items[item := items[item].(scheduledAt := schedule)]; }
        items := items[item := items[item].(details := items[item].details + details)];
        assert items == PublishTables.PatchItem(old(Db()), item, selected, schedule, details).items;
      }
    }

    method DeleteItem(item: Id) returns (deleted: bool)
      modifies this
      ensures deleted == (item in old(items)) && Db() == PublishTables.DeleteItem(old(Db()), item)
    {
      if item !in items { return false; }
      attempts := AttemptsOutside(attempts, {item});
      items := items - {item};
      order := OrderOutside(order, {item});
      return true;
    }

    method DeleteBatch(batch: Id) returns (deleted: bool)
      modifies this
      ensures deleted == (batch in old(batches)) && Db() == PublishTables.DeleteBatch(old(Db()), batch)
    {
      if batch !in batches { return false; }
      attempts := AttemptsOfOthers(attempts, batch);
      var gone := ItemsOf(items, batch);
      items := items - gone;
      order := OrderOutside(order, gone);
      batches := batches - {batch};
      return true;
    }
  }
}
