/** The publish state machines: statuses and the edges assert_transition accepts. */
module PublishStates {
  import opened Results

  datatype ItemStatus =
    | Uploaded | Normalizing | AsrRunning | CopyRunning | CoverRunning
    | ReviewReady | ManualReviewReady | Publishing | Published
    | GenerationFailed | PublishFailed | Excluded

  datatype BatchStatus = Draft | Processing | InReview | Sending | Completed | PartialFailed

  datatype AttemptStatus = AwaitingReview | Scheduled | Delivered | Failed

  datatype RecordStatus = RecordDraft | RecordSubmitted | RecordPublished | RecordFailed

  datatype Error = InvalidOptions | InvalidTransition | ArtifactMissing

  /** publish_item edges; assert_transition also lets a status stay as it is. */
  predicate ItemMoves(a: ItemStatus, b: ItemStatus) {
    || a == b
    || match a {
         case Uploaded => b.Normalizing? || b.Excluded?
         case Normalizing => b.AsrRunning? || b.GenerationFailed? || b.Excluded?
         case AsrRunning => b.CopyRunning? || b.GenerationFailed? || b.Excluded?
         case CopyRunning => b.CoverRunning? || b.GenerationFailed? || b.Excluded?
         case CoverRunning => b.ReviewReady? || b.ManualReviewReady? || b.GenerationFailed? || b.Excluded?
         case ReviewReady => b.Publishing? || b.Excluded?
         case ManualReviewReady => b.Publishing? || b.Excluded?
         case Publishing => b.Published? || b.PublishFailed?
         case Published => false
         case GenerationFailed => false
         case PublishFailed => b.Publishing? || b.Excluded?
         case Excluded => false
       }
  }

  /** publish_batch edges. */
  predicate BatchMoves(a: BatchStatus, b: BatchStatus) {
    || a == b
    || match a {
         case Draft => b.Processing?
         case Processing => b.InReview? || b.Sending? || b.PartialFailed?
         case InReview => b.Sending?
         case Sending => b.Completed? || b.PartialFailed?
         case Completed => false
         case PartialFailed => b.Sending? || b.Completed?
       }
  }

  /** The status a publish record takes from its item's status. */
  function RecordStatusOf(s: ItemStatus): RecordStatus {
    match s
    case Published => RecordPublished
    case GenerationFailed => RecordFailed
    case PublishFailed => RecordFailed
    case ReviewReady => RecordSubmitted
    case ManualReviewReady => RecordSubmitted
    case Publishing => RecordSubmitted
    case _ => RecordDraft
  }

  predicate Ready(s: ItemStatus) {
    s.ReviewReady? || s.ManualReviewReady? || s.PublishFailed?
  }

  predicate InPipeline(s: ItemStatus) {
    s.Uploaded? || s.Normalizing? || s.AsrRunning? || s.CopyRunning? || s.CoverRunning?
  }

  /** The guard of _assert_item_submittable. */
  predicate Submittable(s: ItemStatus) {
    Ready(s) || InPipeline(s)
  }

  function NextStage(s: ItemStatus): ItemStatus
    requires InPipeline(s) && !s.CoverRunning?
  {
    match s
    case Uploaded => Normalizing
    case Normalizing => AsrRunning
    case AsrRunning => CopyRunning
    case CopyRunning => CoverRunning
  }

  function StagesLeft(s: ItemStatus): nat {
    match s
    case Uploaded => 4
    case Normalizing => 3
    case AsrRunning => 2
    case CopyRunning => 1
    case _ => 0
  }

  /** The rest of the generation pipeline, one asserted edge at a time. */
  function FinishPipeline(s: ItemStatus): Result<ItemStatus, Error>
    requires InPipeline(s)
    decreases StagesLeft(s)
  {
    if s.CoverRunning? then Ok(s)
    else if !ItemMoves(s, NextStage(s)) then Err(InvalidTransition)
    else FinishPipeline(NextStage(s))
  }

  function Assert(a: ItemStatus, b: ItemStatus): Result<ItemStatus, Error> {
    if ItemMoves(a, b) then Ok(b) else Err(InvalidTransition)
  }

  /** How a submission treats its rows. runner is false for a dry run (uses_publish_runner). */
  datatype Mode = Mode(dryRun: bool, runner: bool, schedule: Option<int>) {
    predicate UsesRunner() { !dryRun && runner }
  }

  /** The statuses transaction B drives one selected item through. */
  function Drive(s: ItemStatus, mode: Mode, reported: Option<bool>): Result<ItemStatus, Error> {
    if !Submittable(s) then Err(InvalidOptions)
    else
      var staged := if Ready(s) then Ok(s) else FinishPipeline(s);
      if staged.Err? then staged
      else if mode.dryRun then Assert(staged.value, ReviewReady)
      else
        var ready := if Ready(staged.value) then staged else Assert(staged.value, ReviewReady);
        if ready.Err? then ready
        else
          var sending := Assert(ready.value, Publishing);
          if sending.Err? then sending
          else if mode.UsesRunner() && reported != Some(true) then Assert(Publishing, PublishFailed)
          else Assert(Publishing, Published)
  }

  /** The batch edges asserted at the start of transaction B. */
  function OpenBatch(s: BatchStatus, mode: Mode): Result<BatchStatus, Error> {
    if mode.dryRun then
      if BatchMoves(s, Processing) && BatchMoves(Processing, InReview) then Ok(InReview) else Err(InvalidTransition)
    else if s.InReview? || s.PartialFailed? then
      if !BatchMoves(s, Sending) then Err(InvalidTransition)
      else if mode.runner then Ok(Sending)
      else if BatchMoves(Sending, Completed) then Ok(Completed) else Err(InvalidTransition)
    else if !BatchMoves(s, Processing) || !BatchMoves(Processing, Sending) then Err(InvalidTransition)
    else if mode.runner then Ok(Sending)
    else if BatchMoves(Sending, Completed) then Ok(Completed) else Err(InvalidTransition)
  }

  function AttemptStatusOf(mode: Mode, reported: Option<bool>): AttemptStatus {
    if mode.dryRun then AwaitingReview
    else if mode.UsesRunner() && reported != Some(true) then Failed
    else if mode.schedule.Some? then Scheduled
    else Delivered
  }

  predicate Successful(s: AttemptStatus) { s.Scheduled? || s.Delivered? }

  lemma {:induction false} PipelineFinishes(s: ItemStatus)
    requires InPipeline(s)
    ensures FinishPipeline(s) == Ok(CoverRunning)
    decreases StagesLeft(s)
  {
    if !s.CoverRunning? {
      PipelineFinishes(NextStage(s));
    }
  }

  /** Exactly when the edges let transaction B take an item, and where it ends. */
  lemma {:induction false} DriveOutcome(s: ItemStatus, mode: Mode, reported: Option<bool>)
    ensures Drive(s, mode, reported).Ok? <==>
            Submittable(s) && (mode.dryRun ==> !s.ManualReviewReady? && !s.PublishFailed?)
    ensures Drive(s, mode, reported).Ok? ==>
              Drive(s, mode, reported).value ==
              if mode.dryRun then ReviewReady
              else if mode.runner && reported != Some(true) then PublishFailed
              else Published
    ensures Drive(s, mode, reported).Err? ==>
              (Drive(s, mode, reported).error.InvalidOptions? <==> !Submittable(s))
  {
    if InPipeline(s) {
      PipelineFinishes(s);
    }
  }

  /** An attempt is recorded as successful exactly when its item is recorded as published. */
  lemma {:induction false} AttemptMatchesItem(s: ItemStatus, mode: Mode, reported: Option<bool>)
    requires Drive(s, mode, reported).Ok?
    ensures Successful(AttemptStatusOf(mode, reported)) <==> Drive(s, mode, reported).value.Published?
  {
    DriveOutcome(s, mode, reported);
  }

  /** Exactly which batches transaction B may open: a dry run needs a fresh batch, and a
      completed batch, or one a retry left sending, can never be submitted again. */
  lemma {:induction false} OpenBatchExactly(s: BatchStatus, mode: Mode)
    ensures OpenBatch(s, mode).Ok? <==>
            s.Draft? || s.Processing? || (!mode.dryRun && (s.InReview? || s.PartialFailed?))
    ensures OpenBatch(s, mode).Ok? ==>
              OpenBatch(s, mode).value == if mode.dryRun then InReview else if mode.runner then Sending else Completed
  {
  }
}
