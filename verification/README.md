# Verified models of the production back end

Dafny models of the parts of the system where state, order or arithmetic can go wrong, each with proofs of what
that part is for. Every loop or table-writing operation is a method or a class method proved equal to a
specification function; the theorems are lemmas about those functions, over every input, every run or every
interleaving.

| modules | what they model |
|---|---|
| PublishStates, PublishTables, PublishProtocol, PublishVerdicts, PublishRows, PublishingRepository | the publish batch: submit in two transactions around an unlocked runner window, interleaved with retries, patches and deletes |
| JsonTree, AnnotationPatch, AnnotationLaws, AnnotationViews, AnnotationErrors | annotation patches folded over a JSON projection and a canonical record |
| Timeline, TimelinePlans, DraftNames, Draft, DraftClosure, DraftSegments, DraftBuilder | the JianYing draft compiler: frames to microseconds, staged files, materials, tracks, speeds |
| Rewards, RewardLaws, RewardContents, SettlementLaws, RubricRepository | lazily derived rewards and blind settlement of predictions |
| InvalidWindows, WindowContents | the complement of annotated invalid windows |
| Runs, RunLaws, RunContents, RunRepository | run admission, start-failure compensation and deletion |
| VideoNumbers, VideoRows, VideoContents, VideoRepository | numbering of finished videos over syncs, imports and deletes |
| Balance, BalanceLaws, BalanceContents | provider balances coalesced per account |
| Cookies, CookieLaws, CookieContents | the header form of cookies (cookie-string, section 4.2.1 of RFC 6265) |
| Billing, BillingLaws, BillingContents | billing reconciliation with the balance-snapshot fallback |
| Breaker, BreakerLaws, BreakerContents | the circuit breaker over the log of provider calls |
| Yield, YieldLaws, YieldContents | funnel yield rates |
| Idempotency, IdempotencyLaws | idempotent replay of write requests and the capped body readers |
| Results, Sequences, Text, Sorting, Decimal | shared carriers, text, sorting and numerals |

A raise inside a transaction is an error result that commits nothing. Ids are drawn from a counter, clocks and
outcomes of calls that leave the process are parameters, seconds, scores and money are exact reals.

Where the code does not do what one would expect of it, the proofs say so and when:

- A patch list that notes below `/canonical/` and then overwrites `canonical_notes` with a non-object raises when
  it is applied a second time (`ReplayExactly`, `ReplayCanFail`), and a carried key named like a parameter of
  `build_projection` makes every patch raise (`ParameterNamesRaise`).
- A window that starts after the duration makes the sweep reach past it, since only ends are clamped
  (`SweepIsExactComplement`).
- Plan and draft fall back to different frame rates when the timeline carries none or one that truncates to zero
  (`SecondsRoundTripExactly`), and conversion truncates toward zero, so a span across frame zero can lose two
  microseconds (`EqualCountsAgreeExactly`, `CrossingZeroLosesTwo`).
- A material is as long as its first segment needs; later ones do not lengthen it (`RangeFitsExactly`,
  `LaterCutOverruns`).
- A newer video version without a script leaves a reward that an earlier sync derived and a later one would not
  (`DerivationIsConfluentExactly`, `HiddenScriptIsWithdrawn`), and two unsettled predictions of one script version need two syncs
  (`OneSyncIsEnoughExactly`). A draft adopted again relinks a prediction that is already settled to a script that did
  not settle it (`StaysLinkedExactly`, `ReadoptionRelinks`).
- A failed start fails the job of a run that is still alive (`RaiseLeavesLiveRunExactly`, `SecondStartLeavesLiveRun`),
  and attempt numbers can repeat after deletions (`AttemptRepeatsExactly`, `DeletionsRepeatExactly`,
  `DeletedAttemptRepeats`).
- An import's dry run does not see number conflicts (`RowsFailExactly`).
- Usage records are not unique per invocation, so the reconciliation join can count an estimate or a cost
  again (`EstimateCountsOnceExactly`, `CostCountsOnceExactly`), and a balance cost is dropped when a provider has several groups
  (`FallbackExactly`). Amounts of several currencies are added up, and a provider known by its balance alone is
  reported in CNY (`ReportedCurrencyExactly`, `DollarsReportedInYuan`).
- A run reported with two jobs can make the true yield depend on the order of the events (`OrderDoesNotMatterExactly`,
  `TwoJobsMakeOrderMatter`).
- A successful response that is not text, or is JSON the database refuses, is lost after its handler ran, since only
  JSON errors are caught (`HandlerAnswersWholeExactly`).
- Two users can share an idempotency record when a user id holds a colon, since user and key are joined by one
  (`NamesExactly`, `UsersCanShareNames`).
- Published runs without a job can make the true yield exceed 1 (`TrueYieldIsShareExactly`, `StraysRaiseYield`).

## Model

| member | source | states |
|---|---|---|
| PublishProtocol.OneSuccessPerPublishedItem | packages/publishing/sqlalchemy_repository.py:286-514 | In every interleaving of batch creation, submit A, runner answers, submit B, retries, patches and deletes, a live item has exactly one successful attempt (published or scheduled) if it is `published` and none otherwise; no pipeline status is ever committed, and a published item whose package has a case has its published record |
| PublishProtocol.RunKeeps | packages/publishing/sqlalchemy_repository.py:181-660 | Every transaction, in any order, keeps the tables consistent: item, attempt and batch references resolve, the listing order is a permutation of the live items, no batch rests in `processing` |
| PublishVerdicts.PublishedIsFinal | packages/publishing/sqlalchemy_repository.py:361-371 | Whatever runs after an item was published, while it lives it stays published with exactly the attempts it had: it is never recorded again |
| PublishVerdicts.SubmitCommitsExactly | packages/publishing/sqlalchemy_repository.py:340-402 | Transaction B commits exactly when the batch can be opened and every item selected by then can be driven; the rows are re-read, not those transaction A saw |
| PublishVerdicts.SubmitVerdict | packages/publishing/sqlalchemy_repository.py:340-513 | A committed submit gives each selected item the runner's verdict, moves no other item, and with a runner leaves the batch `partial_failed` exactly when some selected item ended `publish_failed`, else `completed` |
| PublishVerdicts.OverlappingSubmitRaises | packages/publishing/sqlalchemy_repository.py:286-371 | When two submits of a batch overlap, the second to write raises if the first published anything it still has chosen, whatever happens in between; right after the first that item still is chosen |
| PublishVerdicts.RetryStep | packages/publishing/sqlalchemy_repository.py:536-650 | A successful retry removes exactly one failed item from the batch and completes it exactly when that was the last one and every item has a verdict; an unselected, unpublished item keeps the batch in `publishing` |
| PublishVerdicts.RetriesCountDown | packages/publishing/sqlalchemy_repository.py:607-619 | Successful retries, in any order, lower the number of failed items by one each and reach `completed` exactly at zero when every item has a verdict |
| PublishVerdicts.FullSubmitDecides | packages/publishing/sqlalchemy_repository.py:509-513 | A submit of a batch whose items are all selected gives every item a verdict and is `partial_failed` exactly when the set of failed items is not empty: the premise under which retries complete the batch |
| PublishVerdicts.PublishedWasAcknowledged | packages/publishing/sqlalchemy_repository.py:384-557 | When every real submit has a publish runner, an item is published only after a runner call for that item reported success, in a submit or in a retry that got as far as calling the runner; lost or missing outcomes never publish |
| PublishStates.DriveOutcome | packages/publishing/sqlalchemy_repository.py:364-402 | Which statuses the asserted edges let transaction B drive, and where they end: review, published or failed |
| PublishStates.OpenBatchExactly | packages/publishing/sqlalchemy_repository.py:342-357 | Which batches transaction B may open: a dry run needs a fresh batch; a completed batch, or one left `publishing` by a retry, can never be submitted again |
| PublishStates.AttemptMatchesItem | packages/publishing/sqlalchemy_repository.py:435-443 | An attempt is recorded as successful exactly when its item is recorded as published |
| PublishingRepository.SelectedRows | packages/publishing/sqlalchemy_repository.py:290-296 | The selected items of a batch, in listing order |
| PublishingRepository.DriveItem | packages/publishing/sqlalchemy_repository.py:364-402 | The per-item status loop of transaction B ends as the transition tables say, or raises |
| PublishingRepository.InsertItems | packages/publishing/sqlalchemy_repository.py:199-217 | One uploaded, selected item per package and platform, packages outermost |
| PublishingRepository.SubmitRows | packages/publishing/sqlalchemy_repository.py:359-508 | The loop of transaction B: rows, records, attempts and the failure flag after any number of items, or the first raise |
| PublishingRepository.Repository.CreateBatch | packages/publishing/sqlalchemy_repository.py:181-220 | The tables after batch creation; a raise commits nothing |
| PublishingRepository.Repository.BeginSubmit | packages/publishing/sqlalchemy_repository.py:286-311 | Transaction A changes nothing and hands the selected, submittable items to the runner, or raises |
| PublishingRepository.Repository.FinishSubmit | packages/publishing/sqlalchemy_repository.py:331-518 | The tables after transaction B, all of it or nothing; on a commit the staged funnel events are those of the attempts it added |
| PublishingRepository.Repository.RetryItem | packages/publishing/sqlalchemy_repository.py:536-650 | The tables after a retry, all of it or nothing; on a commit the staged funnel events are those of the attempt it added |
| PublishingRepository.Repository.PatchItem | packages/publishing/sqlalchemy_repository.py:652-665 | The patched selection, schedule and descriptive fields are written, absent ones are not, and nothing else changes |
| PublishingRepository.Repository.DeleteItem | packages/publishing/sqlalchemy_repository.py:243-252 | The item goes with its attempts; nothing else changes |
| PublishingRepository.Repository.DeleteBatch | packages/publishing/sqlalchemy_repository.py:232-241 | The batch goes with its items and attempts; nothing else changes |
| PublishingRepository.StagedExactly | packages/publishing/sqlalchemy_repository.py:494-508 | A started event is staged for every recorded attempt, a published event exactly for those recorded as published and a failed one exactly for those recorded as failed; a scheduled attempt stages neither |
| PublishRows.SubmitWritesAttempts | packages/publishing/sqlalchemy_repository.py:435-493 | A committed submit adds one attempt for each selected item, in listing order and under new ids, and changes no other: awaiting review after a dry run, failed exactly when the item ended `publish_failed`, scheduled exactly when it ended published and the submission carries a schedule, delivered exactly when it ended published without one |
| PublishRows.SubmitWritesRows | packages/publishing/sqlalchemy_repository.py:359-406 | The row of every selected item after a committed submit, from the mode and what the runner reported for it, and of no other item |
| PublishRows.SubmitWritesRecords | packages/publishing/sqlalchemy_repository.py:407-434 | One publish record for each selected item whose package has a case, with the verdict of its row; no other record changes |
| PublishRows.SubmitClosesBatch | packages/publishing/sqlalchemy_repository.py:342-513 | The batch ends in review after a dry run, partially failed exactly when a runner reported no success for some selected item, else completed; no other batch changes |
| PublishRows.SubmitStages | packages/publishing/sqlalchemy_repository.py:494-508 | A started event for every attempt, a published one exactly for items that ended published in a submission without a schedule, a failed one exactly for items that ended failed |
| PublishRows.StagedOnce | packages/publishing/sqlalchemy_repository.py:494-508 | No funnel event is staged twice |
| PublishRows.BeginExactly | packages/publishing/sqlalchemy_repository.py:286-311 | Transaction A goes through exactly when something is selected and none of it is published, being published, failed to generate or excluded; the runner is asked for all of it, or for nothing in a dry run or without one |
| PublishRows.SelectedAreListed | packages/publishing/sqlalchemy_repository.py:290-296 | What is selected is each selected item of the batch, once, in the order of the list |
| PublishRows.RetryExactly | packages/publishing/sqlalchemy_repository.py:536-563 | A retry raises exactly when it finds an item that did not fail or the runner reports no success; an item that is not there changes nothing |
| PublishRows.RetryWrites | packages/publishing/sqlalchemy_repository.py:564-640 | A successful retry publishes the item, adds one delivered attempt and, with a case, one published record, and changes no other row |
| PublishRows.RetryClosesBatch | packages/publishing/sqlalchemy_repository.py:607-619 | Its batch is then completed if every item is published and publishing otherwise; no other batch changes |
| PublishRows.CreateExactly | packages/publishing/sqlalchemy_repository.py:181-198 | A batch is created exactly when there are packages and platforms and every package exists; the errors of the other cases |
| PublishRows.CreateWrites | packages/publishing/sqlalchemy_repository.py:199-220 | A draft batch and as many items as packages times platforms, under new ids and last in the list; nothing else changes |
| PublishRows.CreateItems | packages/publishing/sqlalchemy_repository.py:199-217 | For every package and platform an uploaded, selected item with the defaults of the package, packages outermost |
| PublishRows.PatchWrites | packages/publishing/sqlalchemy_repository.py:652-665 | A patch writes the fields it gives, on the item it names, and nothing else |
| PublishRows.DeleteItemWrites | packages/publishing/sqlalchemy_repository.py:243-252 | An item goes with its place in the list and its attempts; other rows stay, in their order |
| PublishRows.DeleteBatchWrites | packages/publishing/sqlalchemy_repository.py:232-241 | A batch goes with its items and attempts; other rows stay, in their order |
| AnnotationLaws.ReplayExactly | apps/api/services/annotation_patch.py:182-289 | Applying an operation list to its own result changes neither canonical nor projection, if and only if the list does not first note something below `/canonical/` and last overwrite `canonical_notes` with a non-object; then the second application raises |
| AnnotationLaws.ReplayCanFail | apps/api/services/annotation_patch.py:230-239 | A two-operation list, for every note name and text, that applies once and whose second application raises |
| AnnotationLaws.ParameterNamesRaise | apps/api/services/annotation_patch.py:161-285 | A projection that carries a key named like a parameter of `build_projection` raises under every operation list, and no patch leaves one behind |
| AnnotationLaws.LayersComeFromCanonical | apps/api/services/annotation_patch.py:161-179 | After every patch the projection shows, element by element, the new canonical's clips as `segments` and its events, usage windows and BGM under their own keys, its report and its status, whatever was written there |
| AnnotationLaws.LightOpsKeepCanonical | apps/api/services/annotation_patch.py:223-262 | Lists of lightweight operations never change the canonical |
| AnnotationLaws.LastEditWins | apps/api/services/annotation_patch.py:217-252 | A structural layer of the new canonical is the validated value of the last operation that edits it, or the old layer when none does |
| AnnotationViews.LayersAreTaken | apps/api/services/annotation_patch.py:75-252 | Each structural layer of the new canonical is, element by element, the last value an operation gives at one of its paths, completed and taken by the contract model, or the layer there was |
| AnnotationViews.CanonicalIsKept | apps/api/services/annotation_patch.py:53-72 | An accepted patch changes nothing of the stored annotation but clips, events and BGM; a stub becomes an empty annotation of the asset |
| AnnotationViews.RebuiltDefaults | apps/api/services/annotation_patch.py:161-179 | A title that nobody gives is the asset's; a usable flag that nobody gives says that the annotation did not fail and has usage windows |
| AnnotationViews.UnwrittenIsCarried | apps/api/services/annotation_patch.py:205-289 | What the projection carries beside rebuilt layers, labels and notes stays until an operation writes it |
| AnnotationViews.FreeNameShows | apps/api/services/annotation_patch.py:231-232 | A free name given last below `/projection/` shows with that value |
| AnnotationViews.OwnPathShows | apps/api/services/annotation_patch.py:227-230 | A title or usable flag given last by its own path shows |
| AnnotationViews.LabelsShow | apps/api/services/annotation_patch.py:224-266 | Labels given last by their own path show |
| AnnotationViews.StoredLabelsShow | apps/api/services/annotation_patch.py:207-268 | Without an operation on them, stored labels that are a list or an object show where the projection has none |
| AnnotationErrors.NoteShows | apps/api/services/annotation_patch.py:233-240 | A note given last below `/canonical/` shows under its name among the notes |
| AnnotationErrors.PatchRaisesExactly | apps/api/services/annotation_patch.py:53-289 | Every error and nothing else: an unreadable stored annotation, the first operation that fails and how (deprecated path, value that is no array, first bad element, note where the notes are no object), or a carried key named like a parameter; merging taken layers never raises |
| AnnotationErrors.PatchedInBounds | apps/api/services/annotation_patch.py:75-158 | Every layer with times of a patched annotation is inside its duration |
| AnnotationPatch.ValidatedElements | apps/api/services/annotation_patch.py:75-158 | A structural value is accepted as a whole: one validated element per raw one, in order, inside the known duration |
| AnnotationPatch.ValidateElements | apps/api/services/annotation_patch.py:75-158 | The validation loops return all elements or raise at the first bad one |
| AnnotationPatch.ApplyPatch | apps/api/services/annotation_patch.py:182-289 | The operation loop, merge and rebuilt projection together give the patched record, or the error raised |
| JsonTree.ReplayIsIdempotent | apps/api/services/annotation_patch.py:296-305 | Nested writes replayed on their own result, in any number and at any depths, change nothing |
| Timeline.BuildVideoSegments | packages/production/jianying_draft.py:64-115 | The plan loop emits one segment per usable entry, in order |
| Timeline.SegmentsTakeFrames | packages/production/jianying_draft.py:97-99 | Every planned segment takes frames on both the timeline and its source |
| TimelinePlans.SegmentsAreTaken | packages/production/jianying_draft.py:64-115 | The plan is exactly what its entries ask for, in order: for every segment the track, the asset and path of the source its own plan names and the nearest frames to the positions given or fallen back to; every entry that asks for a segment that takes time has one |
| TimelinePlans.FrameExactly | packages/production/jianying_draft.py:531-549 | A position is its frame, or the whole number nearest to its seconds, or to those it falls back to, times the rate, halves to even, or zero |
| TimelinePlans.MicrosExactly | packages/production/jianying_draft.py:444-445 | A frame is at its share of the rate in microseconds, cut toward zero, a rate of zero standing for 30 |
| Timeline.CompilationIsMonotone | packages/production/jianying_draft.py:444-445 | At every rate frame order survives conversion to microseconds, turned round when the rate divided by (30 for zero) is negative; strictly up to a million frames per second |
| Timeline.NothingLostExactly | packages/production/jianying_draft.py:569-575 | No segment that passes the frame filter is dropped by the microsecond filter, if and only if the rate divided by, 30 for a zero one, is positive and at most 1,000,000; over every integer rate |
| Timeline.DurationsTelescope | packages/production/jianying_draft.py:569-600 | A track contiguous in frames is contiguous in microseconds and its durations add up to its whole span |
| Timeline.EqualCountsAgreeExactly | packages/production/jianying_draft.py:444-445 | Equal frame counts give durations at most one microsecond apart, at every rate, if and only if the carries read off the remainders at the ends of the two spans are not opposed; else they are exactly two apart |
| Timeline.DurationIsLengthAndCarry | packages/production/jianying_draft.py:444-445 | A span of n frames lasts what n frames are worth and a carry: 0 or 1 on one side of frame zero, 0 or -1 across it |
| Timeline.CrossingZeroLosesTwo | packages/production/jianying_draft.py:444-445 | Two frames across zero at 24 frames per second differ by two microseconds from two frames at zero: their carries are opposed |
| Timeline.SecondsRoundTripExactly | packages/production/jianying_draft.py:70-71 | Positions given in seconds come back within half a frame, for every position and whatever rates the plan and the timeline carry, if and only if the timeline carries one that does not truncate to zero, or carries none and the portrait plan carries none or one that truncates to 30 |
| Timeline.RatesRoundTripExactly | packages/production/jianying_draft.py:531-549 | For any two integer rates, positions given in seconds come back, for every position, if and only if the plan counts frames at the rate the draft divides by, 30 for a zero one |
| DraftNames.FreeNameIsFirst | packages/production/jianying_draft.py:501-510 | The search for a free file name stops within as many tries as there are used names, at the first free one |
| DraftNames.NamesDiffer | packages/production/jianying_draft.py:501-510 | The names tried for one file are pairwise different |
| DraftNames.NamesTried | packages/production/jianying_draft.py:501-510 | The names tried are the file's own, and then its stem with _2, _3 and so on before the extension |
| DraftBuilder.Builder.UniqueName | packages/production/jianying_draft.py:501-510 | The chosen name is the first free one and is used up |
| DraftBuilder.Builder.StageOnce | packages/production/jianying_draft.py:448-482 | A source is staged once under a free name; a missing one is reported and nothing changes |
| DraftBuilder.Builder.ExplicitVideoTracks | packages/production/jianying_draft.py:559-601 | Tracks, materials and used names after all planned video segments, or the first missing source |
| DraftBuilder.Builder.ExplicitAudioTracks | packages/production/jianying_draft.py:604-642 | The same for planned audio segments |
| DraftBuilder.Builder.PlanSegments | packages/production/jianying_draft.py:645-698 | The main and b-roll loops over timeline entries that share one material |
| DraftBuilder.Builder.SingleVideo | packages/production/jianying_draft.py:273-291 | Without planned segments: one material, a main track that is never empty, and a b-roll track if it has entries |
| DraftBuilder.Builder.Tracked | packages/production/jianying_draft.py:255-260 | The tracks of one kind and one speed per segment, track after track |
| DraftBuilder.Builder.Build | packages/production/jianying_draft.py:219-318 | The media part of a draft: staged files, materials, tracks, speeds and duration, or the first missing source |
| DraftClosure.BuildIsClosed | packages/production/jianying_draft.py:559-642 | In every finished draft each track plays exactly its own cuts in order, and each segment names one material whose path is the staged copy of its own source |
| DraftClosure.SharedExactly | packages/production/jianying_draft.py:576-590 | Two segments of one kind share a material if and only if their resolved sources are equal |
| DraftClosure.StagedNamesDiffer | packages/production/jianying_draft.py:466-510 | Distinct staged files never share a name, also between video and audio |
| DraftClosure.MaterialPathsDiffer | packages/production/jianying_draft.py:576-590 | No two materials of one kind have the same path |
| DraftClosure.TrackNamesDiffer | packages/production/jianying_draft.py:591-600 | No two tracks of one kind share a name |
| DraftClosure.SpeedsOnce | packages/production/jianying_draft.py:255-318 | The speed materials of a finished draft are those its tracks' segments refer to, in order, and no two segments share one |
| DraftClosure.BuildSucceedsExactly | packages/production/jianying_draft.py:448-463 | A build fails if and only if the probed video, the narration or the source of a segment that survives the filters is missing |
| DraftClosure.RangeFitsExactly | packages/production/jianying_draft.py:273-587 | A segment's source range fits its material if and only if it does not start before the file and stops no later than the material of its source lasts: of planned segments, the probed file or the first segment of the source, so later ones do not lengthen it; otherwise the draft or the narration |
| DraftClosure.NarrationFits | packages/production/jianying_draft.py:293-318 | A narration alone always fits its material |
| DraftClosure.LaterCutOverruns | packages/production/jianying_draft.py:579-587 | A build that succeeds with a segment that reads past the end of its material: a source of a given length used twice, the second time for longer |
| DraftClosure.ContiguousTracksStayContiguous | packages/production/jianying_draft.py:566-601 | From planned frames to the finished draft, at rates from 1 to a million: no segment is lost, and a track contiguous in frames is contiguous in the draft, its durations adding up to its span |
| DraftSegments.PlannedVideoPlays | packages/production/jianying_draft.py:559-601 | In a draft of planned segments the n-th segment of each video track starts and lasts as the frames of the n-th surviving planned segment of that track convert, plays its source from and for as long as its source frames convert, and its material is the staged copy of that source |
| DraftSegments.PlannedVideoHasTrack | packages/production/jianying_draft.py:566-601 | Every planned segment that survives the conversion has its track |
| DraftSegments.PlannedAudioPlays | packages/production/jianying_draft.py:604-642 | The same for planned audio, with the source length or what it falls back to |
| DraftSegments.PlannedAudioHasTrack | packages/production/jianying_draft.py:604-642 | Every planned audio segment that lasts has its track |
| DraftSegments.AloneMainPlays | packages/production/jianying_draft.py:273-291 | Without planned segments the main track plays the portrait entries that last, or the whole video |
| DraftSegments.AloneBrollPlays | packages/production/jianying_draft.py:285-291 | The b-roll track then plays its own entries that last |
| DraftSegments.NarrationPlays | packages/production/jianying_draft.py:304-318 | A narration alone plays whole, from the start |
| DraftSegments.DurationExactly | packages/production/jianying_draft.py:237-242 | A draft lasts as long as the longest of what was asked for, the video and the narration, and at least a microsecond |
| DraftSegments.TracksInOrder | packages/production/jianying_draft.py:250-318 | Video tracks come before audio tracks, numbered within their kind: those of the planned segments that survive, in the order their names first occur, or else the video, the b-roll if any of it lasts, and the narration if there is one |
| RewardLaws.SyncAddsDerivable | apps/api/services/case_rubric.py:183-251 | A sync adds exactly the missing derivable keys, each once, and changes no reward that is there |
| RewardLaws.RunRewards | apps/api/services/case_rubric.py:183-251 | Over every run, rewards only grow, each key occurs once, and the derived keys are those derivable at some sync |
| RewardLaws.DerivationIsConfluentExactly | apps/api/services/case_rubric.py:183-251 | A run that ends in a sync holds every key derivable from the final facts, each once, and no other derived key if and only if no sync found a script for a video that the final facts leave without one |
| RewardLaws.HiddenScriptIsWithdrawn | apps/api/services/case_rubric.py:187-204 | A run that fails it, for all ids: a version with a script, a sync, a newer version without one, a sync |
| RewardLaws.DerivationIsConfluent | apps/api/services/case_rubric.py:183-251 | In particular when no arriving version ever hides the script of an older one |
| RewardLaws.ArrivalKeepsDerivableExactly | packages/creative/cases/sqlalchemy_rubric.py:441-480 | An arriving fact withdraws nothing if and only if it hides no script |
| SettlementLaws.SettlementIsBlind | apps/api/services/case_rubric.py:263-291 | At every moment of every history, a prediction that becomes settled is settled by a sync, with the value of a counted score of the script it is linked to at that moment, observed strictly after its lock |
| SettlementLaws.SettlementsAreOwn | apps/api/services/case_rubric.py:263-291 | Every settlement there is was made so at some sync of the history, and has been the same since |
| SettlementLaws.SettlementIsFinal | apps/api/services/case_rubric.py:263-291 | Between any two points of any history each prediction keeps its composite, band, scores, lock time and draft, and its settlement once it has one |
| SettlementLaws.StaysLinkedExactly | apps/api/services/case_rubric.py:122-145 | A settled prediction stays linked to the script that settled it if and only if no later adoption of its draft, while it is the newest prediction of the draft, is of another version |
| SettlementLaws.ReadoptionRelinks | apps/api/services/case_rubric.py:122-145 | A history of six events, for all ids and values, that ends with a settled prediction linked to a script that did not settle it |
| SettlementLaws.SyncQuietExactly | apps/api/services/case_rubric.py:227-260 | A sync leaves the predictions alone if and only if no score is ripe, and otherwise settles some |
| SettlementLaws.OneSyncIsEnoughExactly | apps/api/services/case_rubric.py:263-291 | One sync settles all it ever will, for all facts, if and only if no two unsettled predictions are linked to one script version |
| SettlementLaws.RepeatedSyncStabilises | apps/api/services/case_rubric.py:227-260 | Syncing as often as there are unsettled predictions always reaches a fixpoint |
| SettlementLaws.LabelsAreLatest | apps/api/services/case_rubric.py:454-493 | Calibration labels exactly the predictions that are settled or concerned by a reward after their lock, each with the latest such reward, or its settlement when there is none |
| RewardContents.RewardsAreFounded | apps/api/services/case_rubric.py:183-251 | Over every run each reward carries what founded it then: a video's reward its video and the script it had, a published one the script of a published record with its id, a performance one the grade of a score that counts, the time of that observation and the script linked at the deriving sync |
| RewardContents.PerformanceLabelsAreBlind | apps/api/services/case_rubric.py:239-493 | In every run a label taken from a performance reward is an observation made strictly after the lock of the prediction, at its time |
| RewardContents.DerivableExactly | apps/api/services/case_rubric.py:183-251 | A sync rewards every video with a script, every published record and every score that counts and whose observation is there, and nothing else |
| RewardContents.LabelExactly | apps/api/services/case_rubric.py:454-493 | A prediction is labelled by the last reward about it, or else by its own settlement, and left out with neither |
| RewardContents.SettlesNewest | apps/api/services/case_rubric.py:263-291 | A score settles the newest unsettled prediction of its script, and no other, exactly when it counts and was observed after the lock |
| RewardContents.AdoptLinksNewest | apps/api/services/case_rubric.py:122-145 | An adoption links the newest prediction of the draft to its script, and no other |
| SettlementLaws.UpdateAt | packages/creative/cases/sqlalchemy_rubric.py:257-272 | Updating a prediction row changes its linkage and settlement and nothing it locked |
| RubricRepository.Repository.Insert | packages/creative/cases/sqlalchemy_rubric.py:295-312 | A reward whose kind and evidence are already there is not added again |
| RubricRepository.Repository.SettlePrediction | apps/api/services/case_rubric.py:263-291 | The newest unsettled prediction of the target script, settled unless the observation is not later than its lock |
| RubricRepository.Repository.DeriveVideos | apps/api/services/case_rubric.py:187-204 | Rewards after the finished-video loop |
| RubricRepository.Repository.DeriveRecords | apps/api/services/case_rubric.py:206-225 | Rewards after the publish-record loop |
| RubricRepository.Repository.DeriveScores | apps/api/services/case_rubric.py:227-260 | Rewards and predictions after the score loop |
| RubricRepository.Repository.Sync | apps/api/services/case_rubric.py:183-260 | The whole state after a sync |
| RubricRepository.Repository.Adopt | apps/api/services/case_rubric.py:122-145 | An adopted draft is rewarded once and its newest prediction linked |
| RubricRepository.Repository.Discard | apps/api/services/case_rubric.py:148-170 | A discarded video is rewarded once |
| RubricRepository.Repository.LatestReward | apps/api/services/case_rubric.py:473-493 | The latest reward about a prediction after its lock, among the rewards in the order a query lists them; the first listed of equals |
| RubricRepository.Repository.LabeledPredictions | apps/api/services/case_rubric.py:454-470 | The labelled predictions, in order, for the rewards in the order a query lists them |
| InvalidWindows.SweepIsExactComplement | apps/api/services/media_processing.py:372-397 | For every accepted annotation the unfiltered pieces contain a point of [0, duration) exactly when no window does; they stay inside if and only if no window starts after the duration, are ascending and disjoint if and only if at most one does, and their length plus the length of the union of windows is the duration and what windows start late by |
| InvalidWindows.SegmentsAlwaysSane | apps/api/services/media_processing.py:372-397 | For every accepted annotation the returned segments are ascending, disjoint, longer than the slack, and end at most 0.03 after the duration |
| WindowContents.SegmentsExactly | apps/api/services/media_processing.py:372-397 | For every annotation that is taken, a stretch is returned exactly when it is longer than 0.03 seconds, runs from 0 or the end of an entry to the start of an entry, or to the end of the clip if none starts later, and every entry ends before it or starts after it |
| WindowContents.RejectedExactly | apps/api/services/media_processing.py:385-397 | An annotation is rejected exactly when an entry starts before 0, ends before it starts, or ends more than 0.03 seconds after the clip |
| InvalidWindows.LengthOfPoints | apps/api/services/media_processing.py:372-383 | Two ascending decompositions of the same points have the same length |
| InvalidWindows.SweepOvershoots | apps/api/services/media_processing.py:385-397 | A window that starts after the duration makes a piece reach past it, because only the end is clamped |
| InvalidWindows.ReadAnnotationSegments | apps/api/services/media_processing.py:385-397 | The reader returns the sorted, clamped windows, or raises at a bad entry |
| InvalidWindows.ValidSegmentsFromAnnotation | apps/api/services/media_processing.py:372-383 | The cursor loop returns the kept pieces of the sweep |
| RunLaws.HistoriesAreSound | apps/api/services/jobs_runs.py:81-142 | Over any history of admissions, starts, raises, runtime moves and deletions: a run whose start raised is never left admitted or running, each job's active run is none or an existing run of that job, and no artifact, finished video or invocation names a deleted run |
| RunLaws.HistoriesKeep | apps/api/services/jobs_runs.py:81-142 | The same with every table reference resolved and the run order a permutation of the live runs |
| RunLaws.AdmitsExactly | apps/api/services/jobs_runs.py:92-121 | A job takes another run if and only if it is draft, queued or running, or the run it restarts from ended in the way that allows it |
| RunContents.AdmissionRaises | apps/api/services/jobs_runs.py:81-121 | Which admissions raise, and with what |
| RunContents.AdmissionWrites | apps/api/services/jobs_runs.py:121-142 | What an admission writes: the run, its number after the runs the job has, what it resumes or retries, and the job's status and active run; nothing else |
| RunContents.CompensationWrites | apps/api/services/jobs_runs.py:328-367 | What a compensation writes: the run fails if it is admitted or running, its job with it if queued or running; nothing else |
| RunContents.DeletionExactly | apps/api/services/jobs_runs.py:732-742 | A run is deleted exactly when it is there and over |
| RunContents.DeletionWrites | apps/api/services/jobs_runs.py:750-763 | The run goes with its nodes and place; artifacts and invocations lose run and node, finished videos the run only |
| RunContents.DeletionWritesJob | apps/api/services/jobs_runs.py:764-775 | The job goes with its last run, and otherwise has the latest of those left as its active one; other jobs stay |
| RunLaws.AdmittedRunsAreLive | apps/api/services/jobs_runs.py:121-142 | An admitted run is the active run of a queued or running job, and the job's move is legal |
| RunLaws.CompensateShape | apps/api/services/jobs_runs.py:328-367 | Compensation fails a run exactly when its status may still fail, and touches no other run |
| RunLaws.RaiseLeavesLiveRunExactly | apps/api/services/jobs_runs.py:328-367 | At every point of every history, when a raised start fails its job, the failed job is left with a live run if and only if another run of the job was live |
| RunLaws.FailedJobHasLiveRunExactly | apps/api/services/jobs_runs.py:328-367 | Compensation that fails a job leaves it with a run that is not over, in any tables, if and only if it had such a run beside the failed one |
| RunLaws.SecondStartLeavesLiveRun | apps/api/services/jobs_runs.py:81-142 | A history of six events that gets there: a second run is admitted while the first one works, and its start raises |
| RunLaws.AttemptsCountUp | apps/api/services/jobs_runs.py:123-136 | While no run was deleted, each job's attempts are 1..n in order of admission |
| RunLaws.AttemptRepeatsExactly | apps/api/services/jobs_runs.py:123-124 | Over every history the next attempt is one more than the runs admitted to the job less those deleted, and repeats one in use if and only if a run that was admitted with that number was not deleted |
| RunLaws.DeletionsRepeatExactly | apps/api/services/jobs_runs.py:123-124 | When d of the n runs of a job are deleted, in whatever order, the next attempt is n - d + 1 and repeats one in use if and only if d > 0 and attempt n - d + 1 is not among the deleted |
| RunLaws.DeletedAttemptRepeats | apps/api/services/jobs_runs.py:123-136 | A history of five events that gets there: of two runs the first fails and is deleted, and the next attempt is 2 again |
| RunRepository.Repository.NextStatus | apps/api/services/jobs_runs.py:92-120 | The job status an admission asserts, or the error raised |
| RunRepository.Repository.AdmitRun | apps/api/services/jobs_runs.py:81-142 | The tables after an admission; a raise changes nothing |
| RunRepository.Repository.HasRetryableFailure | apps/api/services/jobs_runs.py:175-182 | Whether a failed run has a failed node whose error is retryable |
| RunRepository.Repository.CompensateFailedStart | apps/api/services/jobs_runs.py:328-357 | The tables after compensation |
| RunRepository.Repository.DetachRows | apps/api/services/jobs_runs.py:753-763 | Exactly the rows that name the run lose it |
| RunRepository.Repository.DeleteRun | apps/api/services/jobs_runs.py:732-775 | The tables after a deletion: pointers cleared, the latest remaining run active, the job gone with its last run |
| VideoNumbers.FormatReadsBack | packages/production/finished_video_numbering.py:6-11 | A formatted number parses back to itself |
| VideoNumbers.NextIsNew | packages/production/finished_video_numbering.py:6-11 | The next number is never one already stored, however the stored values look |
| VideoContents.NextExactly | packages/production/finished_video_numbering.py:6-11 | The next number is one more than the largest among the values that are numbers, written as V- and at least three digits |
| VideoNumbers.NextFinishedVideoNumber | packages/production/finished_video_numbering.py:6-11 | The loop formats one more than the greatest well-formed number |
| VideoRows.NumbersAreUniqueAndFinal | packages/production/sqlalchemy_repository.py:382-408 | Over all runs of syncs, imports and deletes, numbers of one case differ, and a row that is never deleted keeps the number it once had |
| VideoRows.SyncClashesExactly | packages/production/sqlalchemy_repository.py:392-407 | A sync is rolled back if and only if for some video of it, on the rows reached by then, the video has a number and moved to a case where another row has that number |
| VideoRows.OneClashesExactly | packages/production/sqlalchemy_repository.py:392-407 | The same for the sync of one video: a fresh number never clashes |
| VideoRows.SyncSucceedsInPlace | packages/production/sqlalchemy_repository.py:392-407 | While no video changes its case, neither against the rows nor within the list, a sync is never rolled back |
| VideoRows.ReportsAddUp | packages/production/sqlalchemy_repository.py:1320-1394 | Every import reports created + skipped + failed equal to its rows, one result per row in order, and each count is the number of results of that status |
| VideoRows.RowsFailExactly | packages/production/sqlalchemy_repository.py:1483-1500 | A row fails if and only if it is malformed or, in a real run, asks for a number its case already has or an earlier row asked for; a dry run does not see those conflicts |
| VideoContents.SyncWrites | packages/production/sqlalchemy_repository.py:382-408 | A sync of a video writes its own row: its case, and the number it had unless empty, or the next of its case; in place, or last; other rows stay |
| VideoContents.ResultsExactly | packages/production/sqlalchemy_repository.py:1320-1394 | The result of every row of an import, from the row, the rows there were and those before it in the batch |
| VideoContents.ImportWrites | packages/production/sqlalchemy_repository.py:1320-1394 | The rows an import adds: one for each created video, in order, under its own id, with its case and number; a dry run adds none |
| VideoContents.DeleteWrites | packages/production/sqlalchemy_repository.py:958-973 | A deletion takes one row out and keeps the others in order |
| VideoRepository.Repository.SyncSnapshot | packages/production/sqlalchemy_repository.py:382-408 | The rows after a sync, or all of it rolled back |
| VideoRepository.Repository.CreateImportBatch | packages/production/sqlalchemy_repository.py:1320-1394 | The rows and the report after an import |
| VideoRepository.Repository.DeleteFinishedVideo | packages/production/sqlalchemy_repository.py:958-973 | The row is gone, or there was none |
| BalanceLaws.CoalesceInInstalments | packages/core/provider_balance_accounts.py:102-122 | coalesce(coalesce(xs) + ys) = coalesce(xs + ys) |
| BalanceLaws.CoalesceTwice | packages/core/provider_balance_accounts.py:102-122 | Coalescing twice is coalescing once |
| BalanceLaws.CoalesceKeeps | packages/core/provider_balance_accounts.py:102-122 | One non-sandbox, normalised row per account, in strictly increasing order |
| BalanceLaws.RowIsBestInput | packages/core/provider_balance_accounts.py:91-99 | The row of an account is its best input, the earliest of equals; an account without a counting input has none |
| BalanceContents.RowsExactly | packages/core/provider_balance_accounts.py:44-122 | A row is shown for an account exactly when it is the input, under the supplier and group it is shown by, that no other input of the account beats and that beats those before it: by status, then by saying how much is left, then by time; sandboxes are not shown |
| BalanceContents.ShownExactly | packages/core/provider_balance_accounts.py:44-84 | Which supplier and group an input is shown by: the shared cloud accounts by name prefix, and none for a provider that has nothing to say |
| BalanceContents.RowsInOrder | packages/core/provider_balance_accounts.py:102-122 | Rows go by provider and group, and no account has two |
| Sorting.LessExactly | packages/core/provider_balance_accounts.py:122-122 | Strings sort by code points: a proper prefix first, and otherwise by the first characters that differ |
| BalanceLaws.InputOrderOfAccounts | packages/core/provider_balance_accounts.py:102-122 | Swapping inputs of different accounts changes nothing |
| BalanceLaws.NormalizeTwice | packages/core/provider_balance_accounts.py:69-84 | Normalising a row a second time changes nothing |
| Balance.CoalesceBalanceItems | packages/core/provider_balance_accounts.py:102-122 | The loop groups normalised rows and sorts them |
| CookieLaws.RoundTripExactly | packages/creative/reference_cookies.py:158-172 | Parsing a printed header gives the same cookies if and only if each is one a header can carry and the first name does not itself start like a `Cookie:` prefix |
| CookieLaws.PartsAreClean | packages/creative/reference_cookies.py:158-172 | Whatever the text, every parsed cookie is one a header can carry |
| CookieContents.CookieExactly | packages/creative/reference_cookies.py:158-172 | A part is a cookie exactly when it has an equals sign and a name before the first that is not empty and not that of an attribute; space around name and value does not count |
| CookieContents.SplitAnywhere | packages/creative/reference_cookies.py:158-172 | Any semicolon or line break splits a header: both sides are read on their own |
| CookieContents.PrefixTaken | packages/creative/reference_cookies.py:159-159 | The word, in any case, and a colon, with space before, between and after, are a prefix |
| CookieContents.PrefixFound | packages/creative/reference_cookies.py:159-159 | And nothing else is |
| CookieLaws.ParsePrefixed | packages/creative/reference_cookies.py:159-159 | A first name with the prefix loses it; the other cookies are read back |
| CookieLaws.DedupeKeepsFirstPlaceLastValue | packages/creative/reference_cookies.py:220-225 | Deduplication keeps each name once, where it first stood, with the value it had last |
| CookieLaws.ImportExactly | packages/creative/reference_cookies.py:69-92 | Any printed list of cookies is imported unchanged if and only if there are some, each is one a header can carry, their names are distinct, and the first name does not itself start like a `Cookie:` prefix |
| CookieLaws.ImportIsClean | packages/creative/reference_cookies.py:69-92 | Whatever the text, imported cookies are some, can be carried by a header and have distinct names |
| Cookies.ParseHeaderCookies | packages/creative/reference_cookies.py:158-172 | The loop collects the cookies of all parts, in order |
| Cookies.DedupeCookies | packages/creative/reference_cookies.py:220-225 | The loop keeps a dictionary by name |
| Cookies.ImportHeader | packages/creative/reference_cookies.py:69-92 | Header import: parsed and deduplicated cookies, or the error for none |
| BillingLaws.GroupsAreSums | packages/ops/sqlalchemy_repository.py:980-1000 | Before the fallback there is one group per provider and capability with rows, holding exactly their sums |
| BillingLaws.FallbackExactly | packages/ops/sqlalchemy_repository.py:1096-1120 | The fallback never changes the estimated total, nor a provider that recorded anything or has several groups; what it adds is counted once |
| BillingContents.JoinExactly | packages/ops/sqlalchemy_repository.py:959-979 | How often the join holds each row: an invocation with each usage record of its own, or alone exactly when it has none |
| BillingContents.RecordedExactly | packages/ops/sqlalchemy_repository.py:1022-1060 | What a row costs: the actual cost, or the price of a call, or the price of the tokens or seconds its unit names, or what the provider reported |
| BillingContents.LineExactly | packages/ops/sqlalchemy_repository.py:980-1140 | A line of an invoked provider estimates and records what the rows of its key do, unless the fallback records the provider's loss on its only key |
| BillingContents.LineCurrencyExactly | packages/ops/sqlalchemy_repository.py:980-1140 | It is in the currency of the first row of its key, an empty one standing for CNY |
| BillingContents.MadeUpExactly | packages/ops/sqlalchemy_repository.py:1106-1120 | Any other line is that of a provider without rows that lost balance, and records the loss in CNY |
| BillingContents.LossesExactly | packages/ops/sqlalchemy_repository.py:1079-1094 | What each account loses: its first balance less its last, when that is positive, over its snapshots with an amount and a currency |
| BillingContents.LinesInOrder | packages/ops/sqlalchemy_repository.py:1122-1140 | Lines go by provider and capability, each once |
| BillingLaws.CostsAreDrops | packages/ops/sqlalchemy_repository.py:1079-1094 | A provider's balance cost is the sum of what its accounts lost from first to last snapshot; gains count nothing |
| BillingLaws.CollectExactly | packages/ops/sqlalchemy_repository.py:1079-1085 | Snapshots are grouped by account, in order |
| BillingLaws.ReconciliationConserves | packages/ops/sqlalchemy_repository.py:1002-1020 | For all rows and snapshots the totals and the variance are those of the line items, and they conserve what the joined rows estimated and recorded plus the balance costs used |
| BillingLaws.ReportedCurrencyExactly | packages/ops/sqlalchemy_repository.py:1002-1020 | The reported currency is that of every amount added if and only if they are all in one currency, and that is CNY or the key of some joined row sorts before the keys of all providers that lost balance and have no rows |
| BillingLaws.LineCurrency | packages/ops/sqlalchemy_repository.py:1106-1140 | A line is in the currency of an invocation of its provider and capability, or in CNY when it has none |
| BillingLaws.DollarsReportedInYuan | packages/ops/sqlalchemy_repository.py:1109-1115 | A provider with a dollar balance and no invocation is reported in CNY |
| BillingLaws.EstimateCountsOnceExactly | packages/ops/sqlalchemy_repository.py:959-981 | The estimated total exceeds the sum over invocations by one more estimate for each usage record beyond an invocation's first, whatever the signs; it equals it when no invocation with an estimate has several usage records, and only then unless estimates of either sign cancel out |
| BillingLaws.CostCountsOnceExactly | packages/ops/sqlalchemy_repository.py:951-1020 | The recorded total exceeds what invocations and balance costs come to, each counted once, by one more actual cost or price per call for each usage record beyond an invocation's first; it is right when no invocation with such a cost has several usage records, and only then unless costs of either sign cancel out |
| BillingLaws.TwoUsagesCountTwice | packages/ops/sqlalchemy_repository.py:959-1000 | A call with two usage records is estimated and charged twice |
| Billing.GroupInvocations | packages/ops/sqlalchemy_repository.py:980-1000 | The grouping loop over joined rows |
| Billing.BalanceActualCosts | packages/ops/sqlalchemy_repository.py:1062-1094 | The snapshot loops |
| Billing.ApplyFallback | packages/ops/sqlalchemy_repository.py:1096-1120 | The fallback loop |
| Billing.LineItems | packages/ops/sqlalchemy_repository.py:1122-1140 | Sorted line items and their totals |
| Billing.ComputeBillingReconciliation | packages/ops/sqlalchemy_repository.py:951-1020 | The whole report |
| BreakerLaws.OwnRecordsDoNotCount | packages/ops/provider_usage_metrics.py:114-127 | On any log the breaker decides as on the log without its own block records |
| BreakerLaws.RecordingBlocksChangesNothing | packages/ai/gateway/provider_gateway.py:271-286 | Over any history of calls, recording blocked calls changes what happens to none |
| BreakerLaws.CannotHoldItselfOpen | packages/ops/circuit_breaker.py:22-62 | In every history a blocked call has, within one window before it, a call of the same profile that was not blocked and failed; after a window without one the next call goes through |
| BreakerLaws.OpenExactly | packages/ops/provider_usage_metrics.py:180-212 | Rates are in [0, 1], the circuit is open if and only if failures exceed the threshold's share of the calls, and a threshold of 1 or more never opens it |
| BreakerContents.HealthExactly | packages/ops/provider_usage_metrics.py:114-212 | Which records the health of a profile counts, and as what |
| BreakerContents.BlocksExactly | packages/ops/circuit_breaker.py:22-62 | A call is blocked exactly when the breaker is on, the call names its profile, and more of the profile's calls of the window failed or ran out of time than the threshold, held between 0 and 1, allows |
| BreakerContents.CallLeaves | packages/ai/gateway/provider_gateway.py:271-286 | The record every call leaves, blocked or not |
| BreakerLaws.P95IsNearestRank | packages/ops/provider_usage_metrics.py:131-165 | The latency reported is the nearest-rank 95th percentile: 95 per cent of the calls took no longer, and fewer took less than any shorter time |
| YieldLaws.OrderDoesNotMatterExactly | packages/ops/yield_rates.py:47-170 | The rates, and the true yield alone, are the same for every permutation of the events, if and only if each winning run that is reported with several jobs has them all to itself or each of them is all that another winning run can count for |
| YieldLaws.RunToJobOrderExactly | packages/ops/yield_rates.py:173-180 | The job of each run is the same for every permutation of the events, if and only if no run is reported with two jobs |
| YieldLaws.OneJobIsSteady | packages/ops/yield_rates.py:173-180 | Events that report each run with one job at most meet that condition |
| YieldLaws.RepeatsDoNotCount | packages/ops/yield_rates.py:47-170 | Lists of events with the same first reports in the same order agree on all rates but approval and stage, with no condition on the events: a repeat after its original changes none of them |
| YieldLaws.LateRepeatsDoNotCount | packages/ops/yield_rates.py:47-170 | So reporting any events of a list again after it changes no rate but approval and stage |
| YieldLaws.AnyReportsAgreeExactly | packages/ops/yield_rates.py:47-170 | Reports of the same events in any order and number agree on all rates but approval and stage, if and only if the condition of OrderDoesNotMatterExactly holds |
| YieldLaws.TwoJobsMakeOrderMatter | packages/ops/yield_rates.py:173-196 | Two published runs, the first of them reported with two jobs, for all distinct names: the true yield is 1/2 or 1 depending on which report comes first |
| YieldLaws.ExtraRunsDoNotRaiseYield | packages/ops/yield_rates.py:183-196 | Publishing another run that counts for a job that already counts never raises the true yield, whether the report names that job, another one too late, or none |
| YieldLaws.SharesAlways | packages/ops/yield_rates.py:156-170 | Finished-video, quality, approval and prompt-version rates are none or in [0, 1], always |
| YieldContents.RatesExactly | packages/ops/yield_rates.py:87-170 | The technical, video, check and publish rates told from the events: which runs, jobs, videos or packages count, over which |
| YieldContents.CountRatesExactly | packages/ops/yield_rates.py:121-170 | The approval and stage rates count reports; the rework and discard rates are out of the videos made, or the jobs that made one when none is named |
| YieldContents.WinnersExactly | packages/ops/yield_rates.py:183-196 | The winning runs: published, not failed by a check and not rejected by hand |
| YieldContents.TrueYieldExactly | packages/ops/yield_rates.py:183-196 | The true yield divides the jobs that winning runs count for by all jobs |
| YieldContents.PromptYieldExactly | packages/ops/yield_rates.py:199-221 | A prompt version's yield divides the winning runs that used it by all that did |
| YieldLaws.TrueJobsSubmittedExactly | packages/ops/yield_rates.py:183-196 | The winning jobs are submitted ones if and only if each winning run has a job or is named like one |
| YieldLaws.TrueYieldIsShareExactly | packages/ops/yield_rates.py:183-196 | The true yield is none or in [0, 1] if and only if no job was submitted, or the winning runs without a job, not named like one, are no more than the submitted jobs that no winning run counts for |
| YieldLaws.StraysRaiseYield | packages/ops/yield_rates.py:183-196 | One submitted job and two published runs without a job make a true yield of 2 |
| Yield.CollectRuns | packages/ops/yield_rates.py:87-104 | The run sets of the event loop |
| Yield.CollectVideos | packages/ops/yield_rates.py:106-119 | Its job and video sets |
| Yield.CollectOutcomes | packages/ops/yield_rates.py:121-134 | Its rework, discard and package sets |
| Yield.CountEvents | packages/ops/yield_rates.py:126-139 | Its counters |
| Yield.MapRunsToJobs | packages/ops/yield_rates.py:173-180 | The first job each run is seen with |
| Yield.TrueYieldJobs | packages/ops/yield_rates.py:183-196 | The jobs of published, undisqualified runs |
| Yield.PromptVersionYield | packages/ops/yield_rates.py:199-221 | Per prompt version, the share of its runs that won |
| Yield.ComputeYieldRates | packages/ops/yield_rates.py:47-170 | All rates from the events |
| IdempotencyLaws.StoredResponseAnswers | apps/api/dependencies.py:201-226 | Once a replayable response is stored, no later request of that user with the same key, method and path runs the handler within 24 hours: the same body gets the stored content, another one a conflict |
| IdempotencyLaws.NewNameRuns | apps/api/dependencies.py:201-232 | A covered, acceptable request runs the handler when no earlier request had its user, key, method and path |
| IdempotencyLaws.OtherNameNeverAnswers | apps/api/dependencies.py:201-226 | A record left by a request of the user that differs in key, method or path answers nothing |
| IdempotencyLaws.NamesExactly | apps/api/dependencies.py:197-206 | Two requests share a record exactly when method and path are equal and user and key read the same joined by a colon |
| IdempotencyLaws.UsersCanShareNames | apps/api/dependencies.py:197-206 | Two users can share one when a user id holds a colon |
| IdempotencyLaws.ForgottenAfterADay | packages/core/storage/sqlalchemy_idempotency.py:11-24 | After 24 hours the handler runs again |
| IdempotencyLaws.TurnedAwayExactly | apps/api/dependencies.py:158-200 | Which requests are turned away before the handler, and how |
| IdempotencyLaws.OthersPassThrough | apps/api/dependencies.py:158-196 | Requests that are not covered run the handler and store nothing |
| IdempotencyLaws.NeverRunsAgain | apps/api/dependencies.py:185-298 | In any sequential history within the expiry the handler runs zero more times for a stored key |
| IdempotencyLaws.HandlerAnswersWholeExactly | apps/api/dependencies.py:232-301 | When the handler ran, its whole response reaches the client, cached or not, unless the request is covered and the response a success with a non-empty body within the cap that is not text or is JSON the database refuses: that raises, the response is lost and nothing is stored |
| IdempotencyLaws.HandlerRunsExactly | apps/api/dependencies.py:159-232 | The handler runs if and only if the request is not covered, or is acceptable and no live record answers it |
| IdempotencyLaws.LostRunsAgain | apps/api/dependencies.py:268-280 | A client that tries again after a lost response runs the handler again |
| IdempotencyLaws.ReplayableExactly | apps/api/dependencies.py:233-298 | A response can be replayed if and only if it is a success whose body fits the cap and is empty or JSON that can be stored |
| IdempotencyLaws.RunKeeps | packages/core/storage/sqlalchemy_idempotency.py:11-45 | A record survives, unchanged, every request that starts before it expires |
| Idempotency.ReadResponseIs | apps/api/dependencies.py:108-122 | The response reader overflows if and only if the body exceeds the cap, and the prefix read followed by the rest is the whole body, for any chunking |
| Idempotency.ReadRequestIs | apps/api/dependencies.py:125-134 | The request reader overflows if and only if the body exceeds the cap, never holds more than the cap, and otherwise holds the whole body |
| Idempotency.ReadResponseBodyCapped | apps/api/dependencies.py:108-122 | The response loop |
| Idempotency.ReadRequestBodyCapped | apps/api/dependencies.py:125-134 | The request loop |
| Idempotency.Middleware.Lookup | packages/core/storage/sqlalchemy_idempotency.py:11-24 | A live record is returned; an expired one is deleted |
| Idempotency.Middleware.Handle | apps/api/dependencies.py:158-298 | The store and the answer after one request |

## Left out

- SQL, ORM, HTTP, Temporal and object-store plumbing: tables are maps or sequences and each transaction is one atomic step.
- Concurrent syncs, admissions, imports and requests of one key: their histories are sequential, since the code takes no lock there; only the publish batch is modelled with interleaved transactions.
- Persistence of staged funnel events and their deduplication: FinishSubmit states which events are staged.
- Publish packages, adapter ids, messages and cover backfill.
- Normalising the tags of a patch: they arrive normalised.
- Updates of nested dictionaries in place: JSON trees are values, so aliasing between a projection and its caller's object is not captured.
- The contract models of annotations: what they accept and how they dump is a parameter; a stored annotation is one that parses.
- Float rounding: conversions, rates, scores and money are exact; DraftFps and FrameToUs divide exactly and truncate.
- Text segments, subtitles, covers, volumes, the ordering of tracks by render index, and the JSON around them: text segments refer to no material.
- Sanitising of file names, path resolution and media probing: a source is its resolved path with a safe name and a probed length.
- Matching plan segments to timeline entries by id: the sources of a plan are given as maps.
- The grades of rewards, feature prediction, calibration statistics and rubric bumps: parameters or not modelled.
- Metrics folding and scoring of a backfill: the observation and its score arrive as one fact.
- Non-numeric window values, and generator or iterator inputs where the code needs a list.
- Funnel events, node runs beyond what resuming needs, reuse plans and the durable copy of runs.
- Retrying a snapshot sync after a number conflict: with transactions one after another the second try sees the same rows.
- NumberOf: digits outside ASCII, which isdigit accepts, are not numerals here.
- Import types other than finished videos: a row is malformed, known or created.
- The balance query profiles and the statuses outside the listed six.
- Lower: case folding is ASCII only, in provider ids, cookie names and the header prefix.
- Netscape, JSON and DevTools cookies, and the automatic choice between formats.
- ParseHeaderCookies: lines and parts are split in one loop, since a line break ends a part as a semicolon does.
- Reading a reported cost out of raw usage: the cost found is a field of the usage record.
- Snapshots arrive in the order of the query, by provider, account group and time.
- HealthOf: one profile at a time; the report over all profiles and its ordering are not modelled.
- Secrets, host checks, profile validation and budget guards: a rejected call is recorded with its outcome whatever the breaker would say.
- ComputeYieldRates: the single event loop is split into loops over runs, videos, outcomes and counters.
- Authentication, request ids, headers and logging of the middleware, JSON decoding and the rendering of replayed content: users, parsing and hashing are parameters.
- Planning audio segments from the narration and the style plan: audio segments arrive planned.
