# Verification model of reel-harness

reel-harness turns a story into a short film: a language model adapts the story, an image model casts its characters,
a video model generates takes of every shot, a person reviews each stage, ffmpeg assembles the chosen takes, and the
result is published to a video platform. This project models the parts of it whose guarantees no single branch decides,
and proves them for every input, every run or every reachable state:

- **The production lifecycle of a film project** (`FableModel` and the modules beside it). A project record with its
  characters, shots and takes; one function per service action; a step relation over all of them together with an
  abstract shot worker; and, in `FableService`, a class whose methods update the fields in place, loop where the service
  loops, and are proved to do what those functions say. On top of it: `FableInvariants` and `FableWorld` (what every
  reachable project of a whole database keeps), `TakeSelection`, `FableLedger` (conservation of money and the spending
  limit), `FableCasting` (crashes and re-runs of paid casting), `FableSheets` (what a casting run leaves on file),
  `FableGates` (the order of the review gates), `FablePaidWork` (the double gate before paid generation), `FableScript`
  (what an adaptation writes, and that nothing rewrites it), `FableReviews` (what every decision changes), and
  `FableDatabase` (the same for every project of a whole database).
- **The publication protocol** (`StateMachine` and its four instances, `JobService`, `Publication`,
  `PublicationRecovery`, `PublicationReports`, `CreationRace`). Crash recovery through the upload journal with arbitrary journal contents and
  provider answers, manual retry, cancellation, and idempotent creation by racing callers as interleaved steps.
- **Film assembly** (`FilmEditor`, `DialogueMix`). The emitted filter chain is given a meaning, frame by frame, and
  proved to be the timeline that places every clip directly; the rounding drift is bounded.
- **The adaptation validator and its bounded repair loop** (`AdaptationParser`, `AdaptationRules`, `AdaptationService`).
- **Search, reference slots and metadata** (`AssetQuery`, `AssetSelection`, `AssetFetching`, `ReferenceSlots`,
  `PublishMetadata`).

Units: money is in micro-units (the source rounds to six decimals), durations in `FilmEditor` and `DialogueMix` in
microseconds and elsewhere in milliseconds, selection scores are exact reals. A string column that may be NULL or empty
and is only ever tested for truth is an `Option`. Rows are addressed by their position in the project.

## Where the code and its documentation disagree

The model follows the code. Each point is a lemma.

- `deselect_take` documents a step back from EDITING to TAKE_REVIEW; the project table has no such edge, so it is
  refused there (`DeselectAcceptedExactlyWhen`, `EditingNeverStepsBack`).
- `select_take` documents that choosing another take deselects the previous one; SELECTED has no edge to itself, so a
  choice can only be replaced by a deselection first (`SelectAcceptedExactlyWhen`, `ChoicesAreNotReplaced`).
- `select_take` documents that the project advances once every shot is SELECTED; it does so exactly when the project is
  in TAKE_REVIEW at the last choice (`LastChoiceCutsExactlyWhen`, `LastChoiceMadeTooEarly`; `ChosenTooEarly` is what
  becomes of the others, `ReselectionCuts` the way out).
- The estimate documents that it prices the request the worker will make; it prices the preferred resolution even when
  the provider supports only another one (`QuotePricesTheOrderExactlyWhen`).
- `reuse_character` documents reuse as free; the next casting run draws the actor again unless the sheet's fingerprint
  describes the actor in this film (`ReuseIsFreeExactlyWhen`). It does not in a film of another visual style
  (`FinishedSheetsAreFreeInTheirStyle`), nor anywhere once the sheet was rejected and approved again
  (`ReapprovedSheetsAreDrawnAgain`).
- The shot approval is documented as accepted from SHOT_REVIEW; the gates ask only the table, and each is open from
  further statuses (`GatesOpenExactlyWhen`). It is the only way into paid generation all the same
  (`GenerationWasApproved`).
- The running total is documented never to disagree with its line items; a take billed in a foreign currency is recorded
  and not booked, and a regenerated sheet overwrites its line item (`ForeignBillsAreNotBooked`,
  `RegeneratedSheetsStaySpent`). They agree exactly when what was never booked equals what was lost
  (`SpendingIsAccountedFor`).
- Rejecting the story review is documented as the way to adapt again; no service action does it, so a project's
  adaptation is written once (`ProductionWasApproved`).
- A cut plan with fades or muted audio over two clips or more passes validation and fails with a KeyError
  (`FilmEditor.EditFilm`, `CutThatFadesIn`).
- A publication waiting for a retry of its upload keeps that target after reconciliation found the finished video
  (`KnownVideoRetriesProcessingExactlyWhen`, `ParkedUploadStillTargetsUploading`).
- A repair that raises has still committed the video id and released the lease (`RepairRaisesExactlyWhen`,
  `LeaseAlwaysReturned`).

## Model

| member | source | states |
|---|---|---|
| `FableWorld.ReachableIsSound` | reel_harness/core/fable_service.py:393-1356 | every project of every reachable database is sound: cast, shots and selection agree |
| `FableWorld.ProjectsRunAlone` | reel_harness/core/fable_service.py:764-822 | what happens to one project while the whole database runs is the run of its own history -- the actions on it, and the reuses into it of rows as they were then -- so every result about runs holds in the database |
| `FableWorld.ActorsComeFromElsewhere` | reel_harness/core/fable_service.py:771-792 | a reuse changes only the project it casts into, never the one the row comes from, and never takes a project's own row |
| `FableDatabase.EveryProjectsShotsWereApproved` | reel_harness/core/fable_service.py:909-1058 | no shot of any project of the database was touched without the three approvals in its own history |
| `FableDatabase.EveryProjectsSpendingIsAccountedFor` | reel_harness/core/cost_service.py:258-315 | the conservation law for every project of the database, over its own history |
| `FableDatabase.EveryFinishedSheetIsSpared` | reel_harness/core/fable_service.py:559-618 | a finished sheet of any project survives, never asked for again, whatever the rest of the database does, while its own history leaves it alone |
| `FableDatabase.EveryProjectsPaidWorkWasAllowed` | reel_harness/core/cost_service.py:200-255 | in every project of the database, paid work is set going only with the operator's switch on, under a limit its own history set, at a price that fits |
| `FableDatabase.EveryProductionFilmsItsAdaptation` | reel_harness/core/fable_service.py:467-555 | every project of the database in production films the one document adapted in its own history |
| `FableWorld.ReachableCasts` | reel_harness/core/fable_service.py:467-555 | in every reachable project names are unique, every shot's subject is in the cast, and an approved character has all five views |
| `FableWorld.ReachableSelections` | reel_harness/core/fable_service.py:1272-1283 | a shot is SELECTED exactly when exactly one take is; a project in EDITING or later has every shot SELECTED; the final render never misses a take, so only its tools can fail it |
| `FableInvariants.RunsKeepSound` | reel_harness/core/cinematic_state.py:124-176 | any run of service actions and worker steps keeps a project sound |
| `FableInvariants.StepKeepsSound` | reel_harness/core/fable_service.py:1062-1141 | every single action and worker step keeps a project sound |
| `FableInvariants.PutIsSound` | reel_harness/core/fable_service.py:795-822 | reusing an actor keeps names unique and every subject cast |
| `FableInvariants.PutKeepsNames` | reel_harness/core/fable_service.py:502-518 | a namesake's row is taken over in its place, a new name goes to the end, nobody else moves |
| `FableInvariants.DeletionKeeps` | reel_harness/core/fable_service.py:842-853 | deleting a character nobody shoots leaves every remaining subject cast |
| `FableInvariants.AdaptationKeeps` | reel_harness/core/fable_service.py:467-555 | writing an adaptation, also in place of an earlier one, yields a sound project |
| `FableInvariants.NewFilmIsWellPlaced` | reel_harness/core/fable_service.py:529-555 | the rows of an adaptation never collide on scene and shot number |
| `FableInvariants.NewFilmComesFromScenes` | reel_harness/core/fable_service.py:529-555 | every row of an adaptation has the place, the subject and the planned length of one of the document's shots, is PLANNED and has no takes |
| `FableInvariants.NewFilmHoldsEveryShot` | reel_harness/core/fable_service.py:529-555 | every shot of the document has its row, after those of the scenes before it and of the earlier shots of its scene, with its place, subject and planned length |
| `FableScript.AdaptationIsWritten` | reel_harness/core/fable_service.py:467-555 | an accepted adaptation leaves the input, the style, one row for each shot of the document and no other, no two in one place, and everyone declared exactly once, as last described, with nothing drawn |
| `FableScript.ProductionFilmsTheAdaptation` | reel_harness/core/fable_service.py:393-555 | at any point of any run from creation at which the project is in production, its film is the one document ever adapted for it: every shot in its place, with its subject and at its length, and nothing else |
| `FableScript.StepKeepsTheScript` | reel_harness/core/fable_service.py:393-1356 | no action or worker step but an accepted adaptation changes the places, subjects or lengths of the shots, the input or the style |
| `FableScript.AdaptingAgain` | reel_harness/core/fable_service.py:430-447 | adapting an adapted project again is refused for another input and changes nothing for the same one |
| `FableInvariants.FilmFollowsTheStory` | reel_harness/core/fable_service.py:1377-1383 | the film order of every sound project is all of its shots, each strictly after the one before by scene and shot number |
| `FableInvariants.WholePassesAreComplete` | reel_harness/core/fable_service.py:652-673 | a casting pass nothing interrupted has every view |
| `FableInvariants.SelectionKeeps` | reel_harness/core/fable_service.py:1062-1089 | choosing a take keeps exactly one selected take per SELECTED shot |
| `FableInvariants.DeselectionKeeps` | reel_harness/core/fable_service.py:1091-1127 | un-choosing keeps shots and their takes in agreement |
| `FableInvariants.SettleKeeps` | reel_harness/worker/fable_runner.py:476-546 | settling a submitted take never touches a selection |
| `TakeSelection.SelectAcceptedExactlyWhen` | reel_harness/core/fable_service.py:1069-1085 | a take is chosen exactly when it is downloaded and its shot is under review; the sibling loop then changes nothing |
| `TakeSelection.ChoicesAreNotReplaced` | reel_harness/core/fable_service.py:1077-1085 | a sound project under take review whose chosen shot has a second downloaded take that cannot be selected |
| `TakeSelection.DeselectAcceptedExactlyWhen` | reel_harness/core/fable_service.py:1100-1127 | a choice is taken back exactly when the take is selected and the project is in TAKE_REVIEW |
| `TakeSelection.EditingNeverStepsBack` | reel_harness/core/fable_service.py:1118-1123 | a sound project in EDITING, its cast approved, whose chosen take cannot be un-chosen |
| `TakeSelection.LastChoiceCutsExactlyWhen` | reel_harness/core/fable_service.py:1062-1089 | the choice that leaves every shot SELECTED moves the project to EDITING exactly when it is in TAKE_REVIEW |
| `TakeSelection.LastChoiceMadeTooEarly` | reel_harness/core/fable_service.py:1129-1141 | a sound project in GENERATING whose only shot is chosen and which is not cut |
| `TakeSelection.ChosenTooEarly` | reel_harness/worker/fable_lease.py:142-161 | such a project goes on to TAKE_REVIEW, where every further selection is refused |
| `TakeSelection.ReselectionCuts` | reel_harness/core/fable_service.py:1091-1141 | taking any choice back and making it again moves such a project to EDITING and changes nothing else |
| `FableReviews.ChoiceIsTheOnlyOne` | reel_harness/core/fable_service.py:1062-1141 | the chosen take becomes the only selected one of its shot, no other shot changes, and the film is cut exactly when it was the last choice under take review |
| `FableReviews.SheetDecisions` | reel_harness/core/fable_service.py:698-739 | a sheet is approved exactly when all five views are on it; approving and rejecting change that row's approval, and rejecting its fingerprint, and nothing else |
| `FableReviews.ReuseDecides` | reel_harness/core/fable_service.py:764-822 | an actor is reused exactly while casting, approved and with images; the only row of that name is then the source's, unapproved and free, and everyone else stays in place |
| `FableReviews.ShotApprovalReadies` | reel_harness/core/fable_service.py:994-1000 | approving the shots makes exactly the PLANNED ones READY and changes nothing else about them |
| `FableLedger.SpendingIsAccountedFor` | reel_harness/core/cost_service.py:258-315 | over every run from creation: spent plus unbooked foreign bills equals the line items plus what was overwritten or deleted; so spent equals the line items exactly when those two are equal, and is at least them exactly when the unbooked are no more |
| `FableLedger.ForeignBillsAreNotBooked` | reel_harness/worker/fable_runner.py:523-543 | a take billed in a foreign currency after which the line items say more than the total |
| `FableLedger.RegeneratedSheetsStaySpent` | reel_harness/core/fable_service.py:692-695 | a billed sheet drawn again after which the total says more than the line items |
| `FableLedger.RunsBalance` | reel_harness/core/cost_service.py:258-315 | the same law between any two points of a run |
| `FableLedger.StepBalances` | reel_harness/core/fable_service.py:692-695 | the law for one step of any kind |
| `FableLedger.CastOneBalances` | reel_harness/core/fable_service.py:675-696 | a sheet's line item and the running total move together, also through refusals and crashes |
| `FableLedger.SettlementBalances` | reel_harness/worker/fable_runner.py:513-543 | a take's cost is recorded and booked together, or recorded alone when billed in a foreign currency |
| `FableLedger.RecastingBalances` | reel_harness/core/fable_service.py:803-853 | reuse and deletion drop exactly the line item of the row they replace or remove |
| `FableLedger.CastingStaysWithin` | reel_harness/core/fable_service.py:878-905 | with a provider that never bills above its quote, a casting run keeps the spending within the limit, whatever it replays, has refused or leaves half done |
| `FableLedger.RunsStayWithin` | reel_harness/core/cost_service.py:226-255 | no service action ever takes the spending over the limit; only a take's bill that no longer fits can |
| `FableLedger.OneTakeInFlightFits` | reel_harness/worker/fable_runner.py:433-457 | with one take in flight, the limit left alone and a bill no higher than the quote, the check made when ordering is enough |
| `FableLedger.OverspendIsBounded` | reel_harness/worker/fable_runner.py:433-546 | for any number of takes in flight: over any run with the limit left alone and bills no higher than quotes, the overspend is at most the quotes that were in flight beside some order when it was made |
| `FableLedger.TwoTakesInFlightFitExactlyWhen` | reel_harness/worker/fable_runner.py:446-450 | orders reserve nothing: two takes ordered against the same spending fit exactly when both bills do together |
| `FableLedger.EachConditionMatters` | reel_harness/worker/fable_runner.py:446-450 | a second take in flight that costs the whole of that bound; a lowered limit and a bill above the quote that each take the spending over the limit |
| `FableCasting.PassIsChained` | reel_harness/core/fable_service.py:646-664 | a pass asks for the views in order; the face without references, every later view with exactly the face of the same pass |
| `FableCasting.PassKeepsItsImages` | reel_harness/core/fable_service.py:665-673 | a pass keeps exactly the images it was given and is whole exactly when it was given every one |
| `FableSheets.CastingFilesWhatWasDrawn` | reel_harness/core/fable_service.py:559-696 | a casting run in full: it starts exactly when the gate is open, completes exactly when the process lives and no unfinished sheet raises, and wherever it stops the sheets it got past hold this run's pictures -- every view before the first refusal and no other -- and exactly their bills are booked |
| `FableSheets.RunsFileWhatWasDrawn` | reel_harness/core/fable_service.py:605-618 | the first m sheets are spared or filed as drawn, the rest untouched but for the approval of the one in flight, and the spending grew by exactly the bills of the unfinished ones |
| `FableSheets.SheetIsFiledAsDrawn` | reel_harness/core/fable_service.py:620-696 | one unfinished sheet, whatever was on it before: which views it holds and that each is this pass's picture, whether it is refused, its fingerprint, its line item and its currency; and what a crash or a foreign bill leaves |
| `FableSheets.WholeSheetsAreNew` | reel_harness/core/fable_service.py:675-690 | a sheet all of whose views were drawn holds five new pictures, no refusal and a fingerprint that describes the character |
| `FableCasting.FinishedSheetsAreNeverRedrawn` | reel_harness/core/fable_service.py:559-618 | over any run with crashes and re-runs, a finished sheet is never requested or billed again, wherever its row moves, until an accepted action rejects, casts over, deletes or adapts away the character of that name |
| `FableCasting.CrashesLoseOneSheet` | reel_harness/core/fable_service.py:572-578 | wherever a casting run stops, the characters before are done, those after untouched, and the one in flight lost only its approval |
| `FableCasting.SuccessfulRunsCastEveryone` | reel_harness/core/fable_service.py:605-618 | a run that succeeds leaves every sheet finished or refused and the cast in review |
| `FableCasting.ReuseIsFreeExactlyWhen` | reel_harness/core/fable_service.py:764-822 | for every source the service accepts, a next casting run that completes asks nothing for the actor exactly when the source's fingerprint is that of its name and bible in this film's style; otherwise it asks for the face, and for all five views unless one is refused |
| `FableCasting.FinishedSheetsAreFreeInTheirStyle` | reel_harness/pipeline/reference_prompt.py:112-157 | a sheet finished in its own film is reused without a request exactly in films of the same visual style |
| `FableCasting.ReapprovedSheetsAreDrawnAgain` | reel_harness/core/fable_service.py:698-739 | a finished sheet rejected and approved again, reused into a film of the same style, is asked for again |
| `FableGates.GenerationWasApproved` | reel_harness/core/fable_service.py:973-1000 | at any point of any run from creation, cancelled runs included, a shot that left PLANNED or has a take was preceded by the story, cast and shot approvals in that order after the only adaptation, with everyone adult and approved, and with a limit the whole bill fitted at the shot approval |
| `FableGates.OrdersWereApproved` | reel_harness/worker/fable_lease.py:34-58 | the worker orders, submits, moves and bills nothing before those approvals |
| `FableGates.OnlyApprovalTouches` | reel_harness/core/fable_service.py:994-996 | the only step that touches the shots of a project nothing was generated for is an accepted shot approval |
| `FableGates.ProductionWasApproved` | reel_harness/core/fable_service.py:909-1058 | a project found in GENERATING or later passed the three approvals in order before that point |
| `FableGates.GateIsPassed` | reel_harness/core/cinematic_state.py:66-116 | a level is reached only by the accepted approval that opens it |
| `FableGates.GatesInOrder` | reel_harness/core/cinematic_state.py:66-116 | gates are passed in order and each only once in a run |
| `FableGates.StepsClimb` | reel_harness/core/cinematic_state.py:66-116 | no service action or worker step moves a project to a lower level or skips one |
| `FablePaidWork.PaidWorkWasAllowed` | reel_harness/core/cost_service.py:200-255 | over every run from creation: wherever a charging provider prices the film, is ordered a take or is asked for an image, the operator's switch is on, the limit in force is the one the last accepted set_budget named, and the price fits |
| `FablePaidWork.PaidWorkIsAllowed` | reel_harness/core/cost_service.py:200-255 | the same at one step: both switches, and a known price in no foreign currency that fits under the limit with what was spent |
| `FablePaidWork.LimitsAreSet` | reel_harness/core/fable_service.py:271-310 | a limit in force at any point of a run is the one an earlier accepted set_budget named, with none accepted in between |
| `FablePaidWork.NeitherSwitchImpliesTheOther` | reel_harness/core/cost_service.py:200-223 | with either switch missing a charging provider is refused at the shot approval, at every order and before the first image |
| `FableService.FableProject.constructor` | reel_harness/core/fable_service.py:163-169 | a created project is an empty DRAFT |
| `FableService.FableProject.SetBudget` | reel_harness/core/fable_service.py:271-310 | sets, clears or refuses the limit exactly as the model of the action |
| `FableService.FableProject.RecordSpend` | reel_harness/core/cost_service.py:258-275 | books one charge, or refuses a foreign currency and leaves the total alone |
| `FableService.FableProject.RecordedSpend` | reel_harness/core/cost_service.py:278-315 | the audit: the sum of all takes' and sheets' costs, and the number of finished takes without a figure |
| `FableService.UnpricedTakesAreCounted` | reel_harness/core/cost_service.py:294-302 | the audit counts exactly the takes that have media and no figure |
| `FableService.FableProject.StartAdaptation` | reel_harness/core/fable_service.py:430-447 | replays, refuses or commits ADAPTING; the director is called exactly when nothing was adapted yet |
| `FableService.FableProject.FinishAdaptation` | reel_harness/core/fable_service.py:449-555 | replaces the children by the document's cast and shots, or refuses when takes exist, as the specification that `FableScript.AdaptationIsWritten` is about |
| `FableService.FableProject.GenerateReferences` | reel_harness/core/fable_service.py:559-618 | the casting loop: gate, sheet by sheet until one raises, then CHARACTER_REVIEW |
| `FableService.FableProject.GenerateCharacterSheet` | reel_harness/core/fable_service.py:620-696 | one sheet in its two transactions, replay, reopen, file and book, as the specification that `FableSheets.SheetIsFiledAsDrawn` is about |
| `FableService.FableProject.DrawViews` | reel_harness/core/fable_service.py:646-673 | the loop over the views |
| `FableService.FableProject.ApproveReference` | reel_harness/core/fable_service.py:698-723 | approves exactly a complete sheet |
| `FableService.FableProject.ReuseCharacter` | reel_harness/core/fable_service.py:764-822 | casts an approved actor of another project: not yet approved here, and free |
| `FableService.FableProject.DeleteCharacter` | reel_harness/core/fable_service.py:824-853 | removes a character no shot names, refuses otherwise |
| `FableService.FableProject.ApproveCharacters` | reel_harness/core/fable_service.py:928-971 | refuses an unconfirmed or unapproved character, else moves to SHOT_REVIEW |
| `FableService.FableProject.ApproveShots` | reel_harness/core/fable_service.py:973-1000 | accepts exactly an affordable project and makes every PLANNED shot READY |
| `FableService.FableProject.SelectTake` | reel_harness/core/fable_service.py:1062-1089 | deselects the siblings, selects the take, moves the shot and perhaps the project, or changes nothing |
| `FableService.FableProject.DeselectTake` | reel_harness/core/fable_service.py:1091-1127 | un-chooses, or changes nothing |
| `FableService.FableProject.MaybeAdvanceToEditing` | reel_harness/core/fable_service.py:1129-1141 | moves a project in TAKE_REVIEW to EDITING exactly when every shot is SELECTED |
| `FableService.FableProject.RenderFinal` | reel_harness/core/fable_service.py:1247-1334 | hands the editor the chosen clip of every shot in film order and moves to FINAL_REVIEW, or refuses |
| `CostService.ResolveDuration` | reel_harness/pipeline/generation_plan.py:87-109 | the shortest supported duration covering the plan; none exactly when every supported one is shorter |
| `CostService.ResolveResolution` | reel_harness/pipeline/generation_plan.py:67-84 | the preferred resolution if supported, else the only one, else a conflict |
| `CostService.QuotePricesTheOrderExactlyWhen` | reel_harness/core/cost_service.py:107-131 | under every tariff the estimate prices what the worker orders, exactly when the preferred resolution is supported |
| `CostService.EstimateProjectCost` | reel_harness/core/cost_service.py:134-197 | total, currency, unpriced count and known flag of all takes of all shots; conflicts and bad take counts |
| `CostService.EstimateCountsQuotes` | reel_harness/core/cost_service.py:134-197 | the total is the sum of the quotes, one for each shot at its least covering duration at 360p; the unpriced are the missing ones, and the currencies exactly those named |
| `CostService.WithinBudget` | reel_harness/core/cost_service.py:226-255 | allowed exactly when there is no limit, or there is a price, in no other currency, that fits |
| `CostService.PaidGate` | reel_harness/core/cost_service.py:200-223 | a charging provider passes exactly with the operator's switch and a limit, both; any other always |
| `CostService.SetBudget` | reel_harness/core/fable_service.py:285-306 | refused exactly for a limit that is not positive, has no currency, is already spent or would redenominate the spending; otherwise the limit and its currency are set, or the limit alone cleared |
| `CostService.AssertGenerationAffordable` | reel_harness/core/fable_service.py:1002-1058 | refuses exactly when the paid gate, the plan, the price or the budget fails; a charging provider passes only with the switch on and a limit set, and without a provider exactly when the switch is off |
| `CostService.AffordableMeansPayable` | reel_harness/core/fable_service.py:1037-1058 | an approved bill has a price for every shot at its least covering duration, none in a foreign currency, and their sum, times the takes, fits under the limit |
| `StateMachine.RunKeepsRequired` | reel_harness/core/state_machine.py:119-142 | on every run of any of the four machines a status's required fields are present while in it |
| `StateMachine.AppliedExactlyWhen` | reel_harness/core/state_machine.py:119-142 | a transition is made exactly along the table with every required column supplied, and writes its arguments and nothing else |
| `StateMachine.RunStaysInside` | reel_harness/core/state_machine.py:56-100 | a set of statuses the table never leaves is never left |
| `StateMachine.EnteredOnlyFrom` | reel_harness/core/state_machine.py:119-142 | a status with one predecessor is entered by a step from it |
| `PublicationMachine.UploadingAlwaysHasSession` | reel_harness/core/state_machine.py:253-299 | UPLOADING always has a session reference, RETRY_WAIT and FAILED their bookkeeping |
| `PublicationMachine.TerminalPublicationsStay` | reel_harness/core/state_machine.py:171-251 | terminal publications never move; REVIEW_REQUIRED only ever becomes CANCELLED |
| `PublicationMachine.PublishedOnlyFromProcessing` | reel_harness/core/state_machine.py:188-251 | PUBLISHED is entered only from PROCESSING |
| `CinematicState.FailuresCarryReasons` | reel_harness/core/cinematic_state.py:117-254 | failed projects and shots carry their reasons; finished projects never move |
| `JobService.AcceptedActionsLand` | reel_harness/core/service.py:226-316 | accepted job actions never trip the table, and where they land |
| `JobService.ServiceRunsAreTableRuns` | reel_harness/core/service.py:226-316 | any run of job actions is a run of the job table with its required fields kept |
| `JobService.Job.RequestCancel` | reel_harness/core/service.py:226-252 | refused exactly for a finished job; cancels an unlocked job no worker holds at once, and otherwise only flags it |
| `JobService.Job.Approve` | reel_harness/core/service.py:254-267 | moves exactly a job under review to COMPLETED, and touches no column |
| `JobService.Job.Reject` | reel_harness/core/service.py:269-293 | accepted exactly for a job under review and one of six stages: RETRY_WAIT for that stage, due at once, with the reason, as a new attempt with no retries |
| `JobService.Job.RetryFromStage` | reel_harness/core/service.py:295-316 | accepted exactly for a failed job and one of six stages: RETRY_WAIT for that stage, due at once, which its summary names too, in the same attempt |
| `Publication.PublicationRow.ReconcilePublication` | reel_harness/core/publish_reconciliation.py:112-170 | reconciliation under the lease, step for step the specified recovery |
| `Publication.PublicationRow.ReconcileUnlocked` | reel_harness/core/publish_reconciliation.py:173-240 | recovery of a publication whose video is unknown; a provider that has part of the upload means upload_incomplete, one that has all of it ambiguous_remote_state, and only an expired session is forgotten |
| `Publication.PublicationRow.Repair` | reel_harness/core/publish_reconciliation.py:243-272 | what a confirmed video writes, also when the walk through the table raises |
| `Publication.PublicationRow.RetryPublication` | reel_harness/core/publish_retry.py:75-169 | manual retry, accepted or refused unchanged |
| `Publication.PublicationRow.Cancel` | reel_harness/core/publish_service.py:229-259 | cancellation, at once or by request |
| `Publication.LeaseIsNotRead` | reel_harness/core/publish_reconciliation.py:150-170 | what recovery does depends only on whether the lease was free |
| `PublicationReports.OffsetReports` | reel_harness/core/publish_reconciliation.py:217-240 | upload_session_expired, ambiguous_remote_state and upload_incomplete, each exactly when: by how much of an upload begun before has arrived, or because nothing was ever uploaded |
| `PublicationReports.CredentialsReports` | reel_harness/core/publish_reconciliation.py:120-228 | credentials_unavailable is reported exactly when one of the three questions ends in an authentication error |
| `PublicationReports.ReviewReports` | reel_harness/core/publish_reconciliation.py:140-232 | manual_review_required is reported exactly when a worker holds the row, the provider could not be asked, or the account is not eligible |
| `PublicationReports.BlockReports` | reel_harness/core/publish_reconciliation.py:281-352 | the two platform blocks are reported exactly when the probe of a publication that never uploaded anything finds them |
| `PublicationReports.VideoReports` | reel_harness/core/publish_reconciliation.py:112-215 | already_consistent, remote_video_missing and recovered_remote_video, each exactly when |
| `PublicationReports.AsksExactly` | reel_harness/core/publish_reconciliation.py:112-240 | the one question a reconciliation asks: about the video on record or last journalled, else about the upload, else about the account |
| `PublicationReports.NothingElseIsWritten` | reel_harness/core/publish_reconciliation.py:150-240 | but for a repair, a reconciliation writes nothing except that it hands the lease back and forgets an expired session |
| `PublicationReports.RepairWrites` | reel_harness/core/publish_reconciliation.py:243-272 | everything a repair writes, column by column, whether it raises in the end or not |
| `PublicationRecovery.RepairRaisesExactlyWhen` | reel_harness/core/publish_reconciliation.py:243-272 | a repair raises exactly when the remote answer asks for a transition the table forbids from here; never from UPLOADING, UPLOAD_COMPLETED or PROCESSING |
| `PublicationRecovery.VideoIdOverRuns` | reel_harness/core/publish_reconciliation.py:173-272 | over any run a known video id never changes, and an id that appears was unknown before, and set by, one reconciliation that the provider confirmed the last journalled completion to |
| `PublicationRecovery.LearnsIdExactlyWhen` | reel_harness/core/publish_reconciliation.py:173-215 | one reconciliation learns an id exactly when the lease is free, none is known and the last journalled one is confirmed |
| `PublicationRecovery.NeverStartsAnUpload` | reel_harness/core/publish_reconciliation.py:112-240 | recovery only ever asks questions of the provider |
| `PublicationRecovery.RecoveryIsIdempotent` | reel_harness/core/publish_reconciliation.py:112-148 | repeating a successful recovery reports consistency and changes nothing |
| `PublicationRecovery.AcceptedRetryWaits` | reel_harness/core/publish_retry.py:147-169 | an accepted retry is in RETRY_WAIT with all bookkeeping and a legal target |
| `PublicationRecovery.RetryResumesAt` | reel_harness/core/publish_retry.py:62-72 | a retry resumes at the stage named, or else at PROCESSING with a known video, UPLOADING with a session reference and READY_TO_UPLOAD without either |
| `PublicationRecovery.RetryKeepsTheReason` | reel_harness/core/publish_retry.py:147-163 | a retry keeps the recorded failure, or says it was asked for by hand, and changes no other column |
| `PublicationRecovery.KnownVideoRetriesProcessingExactlyWhen` | reel_harness/core/publish_retry.py:62-72 | with a known video an automatic retry targets PROCESSING, except a wait already aimed elsewhere |
| `PublicationRecovery.CrashReconcileRetry` | reel_harness/core/publish_retry.py:62-169 | crash, reconcile, retry from a failed or blocked status only ever polls the recovered video |
| `PublicationRecovery.ParkedUploadStillTargetsUploading` | reel_harness/core/publish_retry.py:147-154 | a publication parked in RETRY_WAIT that is still aimed at UPLOADING after its video was found |
| `PublicationRecovery.CancelNeverTripsTheTable` | reel_harness/core/publish_service.py:237-258 | an accepted cancellation is always a legal transition, sets the request, and changes nothing else |
| `PublicationRecovery.RecoveryRunsAreSafe` | reel_harness/core/publish_service.py:229-259 | runs of reconcile, retry and cancel keep required fields and legal targets and never leave a terminal status |
| `CreationRace.ReachableIsSound` | reel_harness/core/publish_service.py:109-159 | every interleaving of creations, with crashes, keeps rows and callers consistent |
| `CreationRace.CreationIsIdempotent` | reel_harness/core/service.py:132-161 | one row per key; finished callers of a key hold the same row; at most one reports a fresh creation |
| `CreationRace.CallersHoldTheirRow` | reel_harness/core/publish_service.py:109-159 | a finished caller holds a row of its own key, and reports a fresh creation exactly of a row it made, settled by then |
| `CreationRace.SettledByItsCreator` | reel_harness/core/service.py:132-161 | a row is settled exactly when the caller that made it has come home with it |
| `CreationRace.EveryCallerCanFinish` | reel_harness/core/fable_service.py:155-181 | a lost race always re-reads a row, and every caller is at most three steps from its answer |
| `FilmEditor.AssemblyMeansTimeline` | reel_harness/media/film_editor.py:137-187 | for any number of millisecond clips and any validated transition plan the emitted graph shows every clip exactly on its interval, sound and picture alike, at the promised length, mixing by fade or fadeblack as the plan says, with the fades inside and apart |
| `FilmEditor.LoneClipMeansItself` | reel_harness/media/film_editor.py:190-226 | a film of one clip is that clip with its fades |
| `FilmEditor.ChainIsPlacement` | reel_harness/media/film_editor.py:154-170 | joining left to right is placing every clip directly |
| `FilmEditor.PlacedShowsExactly` | reel_harness/media/film_editor.py:145-150 | the timeline shows a clip's instant exactly on the clip's own interval |
| `FilmEditor.BuildFilterComplex` | reel_harness/media/film_editor.py:137-177 | the loop emits the specified graph, every join of the picture named fade for a dissolve and fadeblack for a fade through black, or fails exactly on a transition with neither name |
| `FilmEditor.EditFilm` | reel_harness/media/film_editor.py:190-226 | refusals, the single clip, the graph, and the crash of a validated plan exactly for a cut over two clips or more |
| `FilmEditor.ValidatedExactlyWhen` | reel_harness/media/film_editor.py:86-124 | a plan is valid exactly when its transition is one of three, at most two seconds and shorter than every clip, no time is negative and the two fades fit the film together |
| `FilmEditor.TiesGoToEven` | reel_harness/media/film_editor.py:127-134 | rounding to a millisecond goes to the nearer one, and half a millisecond to the even one |
| `FilmEditor.CutThatFadesIn` | reel_harness/media/film_editor.py:75-83 | a validated cut that needs the graph and crashes building it |
| `FilmEditor.RunningDrift` | reel_harness/media/film_editor.py:154-170 | the running length is within n - 1 half-milliseconds of the exact one |
| `FilmEditor.OffsetDrift` | reel_harness/media/film_editor.py:154-165 | the i-th offset is within i half-milliseconds of the exact start |
| `FilmEditor.EmittedStartDrift` | reel_harness/media/film_editor.py:154-170 | the picture starts clip i within i half-milliseconds of its exact start |
| `FilmEditor.LengthDrift` | reel_harness/media/film_editor.py:127-134 | for any clips the emitted graph's picture is within n half-milliseconds of the promised runtime and its sound within one, and at clip i the two are at most i half-milliseconds apart |
| `DialogueMix.CueStartTimes` | reel_harness/media/dialogue_mix.py:42-49 | each cue starts where its shot starts in a hard-cut film |
| `DialogueMix.CueClockLeads` | reel_harness/media/dialogue_mix.py:42-49 | under transitions the cue clock leads the film by exactly i transition lengths |
| `DialogueMix.AcceptedLinesStayWithTheirShots` | reel_harness/media/dialogue_mix.py:52-66 | a line that starts with its shot is accepted exactly when it ends at most a quarter second after it |
| `DialogueMix.AcceptedLinesBarelyOverlap` | reel_harness/media/dialogue_mix.py:52-66 | so it overlaps the line of any later shot by at most a quarter second |
| `DialogueMix.MixDialogue` | reel_harness/media/dialogue_mix.py:89-145 | every delay filter reads its own cue's input, with and without ambience |
| `DialogueMix.DelayIsTheStart` | reel_harness/media/dialogue_mix.py:109-132 | the emitted delay is the cue's start to the millisecond |
| `AdaptationParser.AdaptationErrors` | reel_harness/pipeline/adaptation_parser.py:100-300 | the error list is exactly the rules violated, and empty exactly when the specification holds |
| `AdaptationRules.MeetsExactlyWhen` | reel_harness/pipeline/adaptation_parser.py:100-300 | the specification in plain words, both ways: declared names, lines and alternation per scene, gapless numbers, quoted beats and the ending, length, speech, angles and movement |
| `AdaptationParser.SceneErrors` | reel_harness/pipeline/adaptation_parser.py:105-146 | the loop over a scene's shots reports exactly its undeclared names, foreign lines and repeats |
| `AdaptationParser.SemanticErrors` | reel_harness/pipeline/adaptation_parser.py:100-154 | declared names and orders, over all scenes |
| `AdaptationParser.BeatSimilarity` | reel_harness/pipeline/adaptation_parser.py:76-97 | the stepping search finds a window over the threshold exactly when one of the windows is |
| `AdaptationParser.WindowsAreEverywhere` | reel_harness/pipeline/adaptation_parser.py:76-97 | the windows are exactly the slices at multiples of half a beat at which a whole one fits, or the one of a shorter source |
| `AdaptationParser.JaccardIsAShare` | reel_harness/pipeline/adaptation_parser.py:76-97 | the similarity is the share in common: between nothing and one, one exactly for equal sets, the same either way |
| `AdaptationParser.FidelityErrors` | reel_harness/pipeline/adaptation_parser.py:157-172 | unmatched beats and a missing ending |
| `AdaptationParser.CraftErrors` | reel_harness/pipeline/adaptation_parser.py:181-275 | shot count, dialogue and camera coverage |
| `AdaptationParser.SortedTestIsNumbered` | reel_harness/pipeline/adaptation_parser.py:146-154 | the sorted comparison holds exactly for a permutation of 1..n |
| `AdaptationService.RunAdaptation` | reel_harness/core/adaptation_service.py:47-73 | at most max + 1 calls; accepts exactly the first good reply in budget; attempts are one plus the repairs, each sent back with its complete list of problems |
| `AdaptationService.ParseAdaptation` | reel_harness/pipeline/adaptation_parser.py:278-300 | no problems exactly for a reply that decodes and meets the specification |
| `AdaptationService.AcceptedDocumentsAreStorable` | reel_harness/core/fable_service.py:529-555 | accepted documents declare every subject and satisfy the unique constraints on order |
| `AdaptationService.TargetShots` | reel_harness/core/adaptation_service.py:60 | the shot count asked for is the runtime over eight seconds, to nearest, half a shot to the even count, at least one |
| `AssetQuery.RelaxationBroadens` | reel_harness/pipeline/asset_query.py:67-81 | a relaxed text is a strictly shorter word prefix, of four words and then of two, with every condition unchanged; there is none exactly when no rung has fewer words |
| `AssetQuery.BuildSceneQuery` | reel_harness/pipeline/asset_query.py:46-64 | the sanitized text, or a fallback when it is empty; the duration hint is the lower bound within the policy's own bounds |
| `AssetQuery.SplitInvertsJoin` | reel_harness/pipeline/asset_query.py:76-81 | splitting the joined words gives the words back |
| `AssetSelection.SelectedIsBest` | reel_harness/pipeline/asset_selection.py:36-94 | nothing is chosen exactly when nothing passes the hard filters; nothing that passes is better than the choice |
| `AssetSelection.OrderDoesNotMatter` | reel_harness/pipeline/asset_selection.py:83-94 | with distinct ids the choice is independent of the result order |
| `AssetSelection.CriteriaAddUp` | reel_harness/pipeline/asset_selection.py:63-80 | size, length and place among the results count separately |
| `AssetSelection.SizePoints` | reel_harness/pipeline/asset_selection.py:69-74 | 50 points for the very shape asked for, less in proportion as the ratio is off, and up to 20 for up to 2160 lines |
| `AssetSelection.LengthPoints` | reel_harness/pipeline/asset_selection.py:75-79 | 20 points in the middle of the allowed range, falling evenly to nothing a whole range away |
| `AssetFetching.RunAssetFetching` | reel_harness/pipeline/stages.py:97-196 | every scene gets the best candidate of its last search excluding earlier choices, or the job is sent to review after the whole ladder |
| `AssetFetching.SearchScene` | reel_harness/pipeline/stages.py:141-160 | at most three searches, each relaxing the one before, stopping at the first choice |
| `AssetFetching.FetchedAssetsAreEligibleAndDifferent` | reel_harness/pipeline/stages.py:136-196 | chosen assets differ pairwise and pass every hard filter, after at most three ever broader searches |
| `ReferenceSlots.SplitReferenceSlots` | reel_harness/pipeline/generation_plan.py:187-201 | dealing the slots out round and round |
| `ReferenceSlots.SharesAreFair` | reel_harness/pipeline/generation_plan.py:187-201 | the shares sum to the limit, are at least one, do not increase and differ by at most one |
| `ReferenceSlots.CharactersInShot` | reel_harness/pipeline/generation_plan.py:156-184 | exactly the named characters that are the subject or named by action or blocking, once each, the subject first |
| `ReferenceSlots.ViewsFor` | reel_harness/pipeline/generation_plan.py:237-249 | the first views in priority order that are recorded and on disk |
| `ReferenceSlots.AvailableInPriorityOrder` | reel_harness/pipeline/generation_plan.py:237-249 | exactly the views recorded and still on disk, each at the place that is the number of better ones |
| `ReferenceSlots.SelectReferenceImagesForShot` | reel_harness/pipeline/generation_plan.py:204-234 | never more stills than the cap, only of approved people in frame, the subject first, nobody passed over while slots remain, each their fair share of the slots |
| `ReferenceSlots.StillsFitTheShares` | reel_harness/pipeline/generation_plan.py:223-234 | the stills fit the shares, so the final slice drops nothing |
| `PublishMetadata.DescriptionIsLongestFit` | reel_harness/pipeline/publish_metadata.py:91-95 | the description is the longest code-point prefix whose UTF-8 encoding (section 3 of RFC 3629) fits 5000 bytes |
| `PublishMetadata.DecodeInvertsEncode` | reel_harness/pipeline/publish_metadata.py:91-95 | decoding the encoded text gives the text back |
| `PublishMetadata.CutKeepsWhatFits` | reel_harness/pipeline/publish_metadata.py:91-95 | decoding a cut encoding keeps exactly the characters that lie wholly before the cut |
| `PublishMetadata.BuildTags` | reel_harness/pipeline/publish_metadata.py:98-123 | the tags are duplicate-free and the longest prefix of the first-seen list that fits 500 characters with its commas |
| `PublishMetadata.FirstSeenInOrder` | reel_harness/pipeline/publish_metadata.py:108-113 | every word stands behind exactly the words first seen before it |
| `PublishMetadata.CandidatesWordByWord` | reel_harness/pipeline/publish_metadata.py:98-108 | word by word, in order, a word of at least two characters once cleaned counts, lower-cased |
| `PublishMetadata.TotalIsJoinedLength` | reel_harness/pipeline/publish_metadata.py:114-123 | the counted total is the length of the tags joined by commas |

## Left out

- Command line, HTTP, web pages, settings, bootstrap: plumbing.
- ffmpeg, ffprobe, provider adapters, OAuth, file hashing and the database engine: their answers are parameters.
- The session and object identity map: rows are values held in the project's fields, so aliasing between loaded objects
  is not captured; a transaction that raises is modelled as changing nothing.
- The shot worker's own loop, its lease and its timeouts: an order passes the cost gates at an arbitrary quote, a take is
  submitted once ordered, a submitted take settles once, and otherwise a shot takes any edge of its table that neither
  leaves PLANNED nor touches SELECTED. Leases elsewhere are a boolean.
- The spending limit during generation: a bill that no longer fits is a hypothesis of `FableLedger.RunsStayWithin`;
  `FableLedger.OverspendIsBounded` says how far bills within their quotes can take the spending over it.
- Approving a sheet between the two transactions of a casting pass: service calls are sequential.
- Fingerprints: an arbitrary function of the character's name, bible and the film's style; injective only where a lemma
  says so. The bible stands for every field the prompts are compiled from.
- Failed projects: no service action or worker step enters that status, so its way back is not modelled.
- `_limit_emoji`, `build_title`, query sanitation and prompt assembly: regular expressions and string assembly.
- The JSON extraction and the field-level schema of an adaptation: an arbitrary decoder in `AdaptationService`; the one
  bound the lifecycle needs, at least one scene, is a condition of writing an adaptation.
- Locations and scene texts of an adaptation, and the role and age range of a character: stored and never decided on.
- Floating-point rounding of scores and prices: scores are reals, money is whole micro-units.
