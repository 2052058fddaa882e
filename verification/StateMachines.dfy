/**
 The four status machines of core/state_machine.py and core/cinematic_state.py.

 Each machine is a table of allowed transitions plus a table of fields that must be
 supplied when a status is entered. The source spells the check/apply pair out once per
 machine; the bodies are the same, so they are modelled once, over an arbitrary table.
 */
module StateMachine {
  import opened Prelude

  datatype Table<!S, !F> = Table(allowed: S -> set<S>, required: S -> set<F>)

  /** A row's status and its non-NULL bookkeeping columns: a column outside `fields` is NULL. */
  datatype Row<S, F, V> = Row(status: S, fields: map<F, V>)

  datatype Applied<S, F, V> = Moved(row: Row<S, F, V>) | InvalidTransition | MissingFields

  /** setattr for each keyword argument; an argument given as None nulls its column. */
  function SetAll<F, V>(fields: map<F, V>, args: map<F, Option<V>>): map<F, V> {
    map f | f in fields.Keys + args.Keys && (f in args ==> args[f].Some?)
      :: if f in args then args[f].value else fields[f]
  }

  predicate Supplied<F, V>(args: map<F, Option<V>>, f: F) {
    f in args && args[f].Some?
  }

  function Apply<S, F, V>(t: Table<S, F>, row: Row<S, F, V>, next: S, args: map<F, Option<V>>): Applied<S, F, V> {
    if next !in t.allowed(row.status) then InvalidTransition
    else if exists f :: f in t.required(next) && !Supplied(args, f) then MissingFields
    else Moved(Row(next, SetAll(row.fields, args)))
  }

  /** A transition is made exactly along the table with every required column supplied; it writes its arguments only. */
  lemma AppliedExactlyWhen<S, F, V>(t: Table<S, F>, row: Row<S, F, V>, next: S, args: map<F, Option<V>>)
    ensures var applied := Apply(t, row, next, args);
            && (applied.InvalidTransition? <==> next !in t.allowed(row.status))
            && (applied.Moved? <==>
                  next in t.allowed(row.status) && forall f :: f in t.required(next) ==> f in args && args[f] != None)
            && (applied.Moved? ==>
                  && applied.row.status == next
                  && (forall f :: f in applied.row.fields <==> if f in args then args[f] != None else f in row.fields)
                  && (forall f :: f in applied.row.fields ==>
                        applied.row.fields[f] == if f in args then args[f].value else row.fields[f]))
  {
  }

  /** What happens to a row over its life: an apply_* call, or a direct write of a non-NULL value. */
  datatype Event<S, F, V> = Transition(next: S, args: map<F, Option<V>>) | Write(field: F, value: V)

  /** A refused transition raises and changes nothing. */
  function Step<S, F, V>(t: Table<S, F>, row: Row<S, F, V>, e: Event<S, F, V>): Row<S, F, V> {
    match e
    case Transition(next, args) => (match Apply(t, row, next, args) case Moved(r) => r case _ => row)
    case Write(f, v) => row.(fields := row.fields[f := v])
  }

  function Run<S, F, V>(t: Table<S, F>, row: Row<S, F, V>, events: seq<Event<S, F, V>>): Row<S, F, V> {
    if events == [] then row
    else Step(t, Run(t, row, events[..|events| - 1]), events[|events| - 1])
  }

  ghost predicate RequiredPresent<S, F, V>(t: Table<S, F>, row: Row<S, F, V>) {
    t.required(row.status) <= row.fields.Keys
  }

  lemma {:induction false} RunKeepsRequired<S, F, V>(t: Table<S, F>, row: Row<S, F, V>, events: seq<Event<S, F, V>>)
    requires RequiredPresent(t, row)
    ensures RequiredPresent(t, Run(t, row, events))
  {
    if events != [] {
      var before := Run(t, row, events[..|events| - 1]);
      RunKeepsRequired(t, row, events[..|events| - 1]);
      match events[|events| - 1] {
        case Write(f, v) =>
        case Transition(next, args) =>
          if Apply(t, before, next, args).Moved? {
            forall f | f in t.required(next) ensures f in SetAll(before.fields, args) {
              assert Supplied(args, f);
            }
          }
      }
    }
  }

  /** A set of statuses the table never leaves is never left by any run. */
  lemma {:induction false} RunStaysInside<S, F, V>(
    t: Table<S, F>, inside: set<S>, row: Row<S, F, V>, events: seq<Event<S, F, V>>)
    requires row.status in inside
    requires forall s :: s in inside ==> t.allowed(s) <= inside
    ensures Run(t, row, events).status in inside
  {
    if events != [] {
      RunStaysInside(t, inside, row, events[..|events| - 1]);
    }
  }

  /** A status only one other status leads to is entered from that one: the run names the step. */
  lemma {:induction false} EnteredOnlyFrom<S, F, V>(
    t: Table<S, F>, target: S, source: S, row: Row<S, F, V>, events: seq<Event<S, F, V>>) returns (k: nat)
    requires row.status != target && Run(t, row, events).status == target
    requires forall s: S :: target in t.allowed(s) ==> s == source
    ensures k < |events|
    ensures Run(t, row, events[..k]).status == source && Run(t, row, events[..k + 1]).status == target
  {
    var n := |events| - 1;
    if Run(t, row, events[..n]).status == target {
      k := EnteredOnlyFrom(t, target, source, row, events[..n]);
      assert events[..n][..k] == events[..k] && events[..n][..k + 1] == events[..k + 1];
    } else {
      k := n;
      assert events[..n + 1] == events;
      var before := Run(t, row, events[..n]);
      assert Run(t, row, events) == Step(t, before, events[n]);
      assert events[n].Transition?;
      assert Apply(t, before, events[n].next, events[n].args).Moved?;
      assert target in t.allowed(before.status);
      assert before.status == source;
    }
  }
}

/** core/state_machine.py:8-142 */
module JobMachine {
  import opened StateMachine

  datatype JobStatus =
    | Created | Queued | TopicGenerating | ScriptGenerating | PolicyChecking | AssetFetching
    | TtsGenerating | Rendering | Validating | ReviewRequired | Ready | Publishing
    | Completed | RetryWait | Failed | Cancelled

  datatype JobField = RetryTargetStage | NextRetryAt | FailureCode | FailureSummary | ReasonCode

  function Allowed(s: JobStatus): set<JobStatus> {
    match s
    case Created => {Queued, Cancelled}
    case Queued => {TopicGenerating, ScriptGenerating, Cancelled}
    case TopicGenerating => {ScriptGenerating, RetryWait, Failed, Cancelled}
    case ScriptGenerating => {PolicyChecking, RetryWait, Failed, Cancelled}
    case PolicyChecking => {AssetFetching, ReviewRequired, Failed, Cancelled}
    case AssetFetching => {TtsGenerating, RetryWait, ReviewRequired, Failed, Cancelled}
    case TtsGenerating => {Rendering, RetryWait, Failed, Cancelled}
    case Rendering => {Validating, RetryWait, Failed, Cancelled}
    case Validating => {ReviewRequired, Failed, Cancelled}
    case ReviewRequired => {Ready, RetryWait, Cancelled}
    case Ready => {Publishing, Completed}
    case Publishing => {Completed, RetryWait, Failed}
    case RetryWait => {TopicGenerating, ScriptGenerating, PolicyChecking, AssetFetching, TtsGenerating,
                       Rendering, Validating, Publishing, Failed, Cancelled}
    case Failed => {RetryWait}
    case Completed => {}
    case Cancelled => {}
  }

  function Required(s: JobStatus): set<JobField> {
    match s
    case RetryWait => {RetryTargetStage, NextRetryAt, FailureCode, FailureSummary}
    case ReviewRequired => {ReasonCode}
    case _ => {}
  }

  const TABLE: Table<JobStatus, JobField> := Table(Allowed, Required)
}

/** core/state_machine.py:153-299 */
module PublicationMachine {
  import opened StateMachine

  datatype PublicationStatus =
    | Created | EligibilityChecking | ReadyToUpload | UploadSessionCreated | Uploading | UploadPaused
    | UploadCompleted | Processing | Published | RetryWait | Failed | Cancelled
    | AuthRequired | QuotaBlocked | ReviewRequired

  datatype PublicationField =
    RetryTargetStatus | NextRetryAt | FailureCode | FailureSummary | UploadSessionReference | PublishedAt

  const TERMINAL: set<PublicationStatus> := {Published, Cancelled}
  const ACTIVE: set<PublicationStatus> := {EligibilityChecking, UploadSessionCreated, Uploading, Processing}

  function Allowed(s: PublicationStatus): set<PublicationStatus> {
    match s
    case Created => {EligibilityChecking, Cancelled}
    case EligibilityChecking => {ReadyToUpload, ReviewRequired, Failed, Cancelled}
    case ReadyToUpload => {UploadSessionCreated, AuthRequired, QuotaBlocked, RetryWait, Failed, Cancelled}
    case UploadSessionCreated => {Uploading, RetryWait, Failed, Cancelled}
    case Uploading => {UploadPaused, UploadCompleted, AuthRequired, QuotaBlocked, RetryWait, Failed, Cancelled}
    case UploadPaused => {Uploading, RetryWait, Failed, Cancelled}
    case UploadCompleted => {Processing, Failed, Cancelled}
    case Processing => {Published, Failed, Cancelled, AuthRequired, QuotaBlocked, RetryWait}
    case Published => {}
    case RetryWait => {EligibilityChecking, ReadyToUpload, UploadSessionCreated, Uploading, Processing,
                       Failed, Cancelled}
    case AuthRequired => {ReadyToUpload, RetryWait, Failed, Cancelled}
    case QuotaBlocked => {RetryWait, Failed, Cancelled}
    case ReviewRequired => {Cancelled}
    case Failed => {RetryWait}
    case Cancelled => {}
  }

  function Required(s: PublicationStatus): set<PublicationField> {
    match s
    case RetryWait => {RetryTargetStatus, NextRetryAt, FailureCode, FailureSummary}
    case ReviewRequired => {FailureCode, FailureSummary}
    case Failed => {FailureCode, FailureSummary}
    case Uploading => {UploadSessionReference}
    case UploadSessionCreated => {UploadSessionReference}
    case _ => {}
  }

  const TABLE: Table<PublicationStatus, PublicationField> := Table(Allowed, Required)

  lemma UploadingAlwaysHasSession<V>(row: Row<PublicationStatus, PublicationField, V>,
                                     events: seq<Event<PublicationStatus, PublicationField, V>>)
    requires RequiredPresent(TABLE, row)
    ensures var end := Run(TABLE, row, events);
            && (end.status in {Uploading, UploadSessionCreated} ==> UploadSessionReference in end.fields)
            && (end.status == RetryWait ==>
                  {RetryTargetStatus, NextRetryAt, FailureCode, FailureSummary} <= end.fields.Keys)
            && (end.status in {Failed, ReviewRequired} ==> {FailureCode, FailureSummary} <= end.fields.Keys)
  {
    RunKeepsRequired(TABLE, row, events);
  }

  lemma TerminalPublicationsStay<V>(row: Row<PublicationStatus, PublicationField, V>,
                                    events: seq<Event<PublicationStatus, PublicationField, V>>)
    ensures row.status in TERMINAL ==> Run(TABLE, row, events).status == row.status
    ensures row.status == ReviewRequired ==> Run(TABLE, row, events).status in {ReviewRequired, Cancelled}
  {
    if row.status in TERMINAL { RunStaysInside(TABLE, {row.status}, row, events); }
    if row.status == ReviewRequired { RunStaysInside(TABLE, {ReviewRequired, Cancelled}, row, events); }
  }

  lemma PublishedOnlyFromProcessing<V>(row: Row<PublicationStatus, PublicationField, V>,
                                       events: seq<Event<PublicationStatus, PublicationField, V>>) returns (k: nat)
    requires row.status != Published && Run(TABLE, row, events).status == Published
    ensures k < |events| && Run(TABLE, row, events[..k]).status == Processing
    ensures Run(TABLE, row, events[..k + 1]).status == Published
  {
    k := EnteredOnlyFrom(TABLE, Published, Processing, row, events);
  }
}

/** core/cinematic_state.py:23-254 */
module CinematicState {
  import opened StateMachine

  datatype ProjectStatus =
    | Draft | Adapting | StoryReview | Casting | CharacterReview | Storyboarding | ShotReview
    | Generating | TakeReview | Editing | FinalReview | Completed | ProjectFailed | Cancelled

  datatype ShotStatus =
    | Planned | Ready | Submitted | ShotGenerating | Downloading | Validating
    | ReviewRequired | Selected | Rejected | ShotFailed

  datatype FailureField = FailureCode | FailureSummary

  function AllowedProject(s: ProjectStatus): set<ProjectStatus> {
    match s
    case Draft => {Adapting, Cancelled}
    case Adapting => {StoryReview, ProjectFailed, Cancelled}
    case StoryReview => {Casting, Adapting, Cancelled}
    case Casting => {CharacterReview, ProjectFailed, Cancelled}
    case CharacterReview => {Storyboarding, Casting, Cancelled}
    case Storyboarding => {ShotReview, ProjectFailed, Cancelled}
    case ShotReview => {Generating, Storyboarding, Cancelled}
    case Generating => {TakeReview, ProjectFailed, Cancelled}
    case TakeReview => {Editing, Generating, Cancelled}
    case Editing => {FinalReview, ProjectFailed, Cancelled}
    case FinalReview => {Completed, Editing, TakeReview, Cancelled}
    case ProjectFailed => {Adapting, Casting, Storyboarding, Generating, Editing, Cancelled}
    case Completed => {}
    case Cancelled => {}
  }

  function RequiredProject(s: ProjectStatus): set<FailureField> {
    if s == ProjectFailed then {FailureCode, FailureSummary} else {}
  }

  function AllowedShot(s: ShotStatus): set<ShotStatus> {
    match s
    case Planned => {Ready, Rejected}
    case Ready => {Submitted, Rejected, ReviewRequired, ShotFailed}
    case Submitted => {ShotGenerating, ReviewRequired, ShotFailed}
    case ShotGenerating => {Downloading, ReviewRequired, ShotFailed}
    case Downloading => {Validating, ReviewRequired, ShotFailed}
    case Validating => {ReviewRequired, Submitted, ShotFailed}
    case ReviewRequired => {Selected, Ready}
    case Selected => {ReviewRequired}
    case Rejected => {Ready}
    case ShotFailed => {Ready}
  }

  function RequiredShot(s: ShotStatus): set<FailureField> {
    if s == ShotFailed then {FailureCode, FailureSummary} else {}
  }

  const PROJECT_TABLE: Table<ProjectStatus, FailureField> := Table(AllowedProject, RequiredProject)
  const SHOT_TABLE: Table<ShotStatus, FailureField> := Table(AllowedShot, RequiredShot)

  /** Both cinematic machines: failures always carry their reason, and finished projects never move again. */
  lemma FailuresCarryReasons<V>(
    project: Row<ProjectStatus, FailureField, V>, projectEvents: seq<Event<ProjectStatus, FailureField, V>>,
    shot: Row<ShotStatus, FailureField, V>, shotEvents: seq<Event<ShotStatus, FailureField, V>>)
    requires RequiredPresent(PROJECT_TABLE, project) && RequiredPresent(SHOT_TABLE, shot)
    ensures var end := Run(PROJECT_TABLE, project, projectEvents);
            && (end.status == ProjectFailed ==> {FailureCode, FailureSummary} <= end.fields.Keys)
            && (project.status in {Completed, Cancelled} ==> end.status == project.status)
    ensures var end := Run(SHOT_TABLE, shot, shotEvents);
            end.status == ShotFailed ==> {FailureCode, FailureSummary} <= end.fields.Keys
  {
    RunKeepsRequired(PROJECT_TABLE, project, projectEvents);
    RunKeepsRequired(SHOT_TABLE, shot, shotEvents);
    if project.status in {Completed, Cancelled} {
      RunStaysInside(PROJECT_TABLE, {project.status}, project, projectEvents);
    }
  }
}
