/** The job actions of core/service.py that move a job's status. */
module JobService {
  import opened Prelude
  import opened StateMachine
  import opened JobMachine

  datatype Stage = Topic | Script | Policy | Asset | Tts | Render | Validate | Publish

  /** What reject and retry may name as the stage to resume from. */
  const RESUMABLE: set<Stage> := {Script, Policy, Asset, Tts, Render, Validate}

  /** A bookkeeping column holds a stage, a time or a text. */
  datatype Value = StageValue(stage: Stage) | TimeValue(time: int) | TextValue(text: string)

  type JobRow = Row<JobStatus, JobField, Value>
  datatype JobState = JobState(row: JobRow, attemptNumber: nat, retryCount: nat, cancelRequested: bool, locked: bool)

  datatype Outcome = Done | InvalidAction | TransitionRefused

  /** Statuses in which no worker holds the job, so a cancel takes effect at once. */
  const IMMEDIATE_CANCEL: set<JobStatus> := {Created, Queued, ReviewRequired, RetryWait}

  function StageName(stage: Stage): string {
    match stage
    case Topic => "TOPIC"
    case Script => "SCRIPT"
    case Policy => "POLICY"
    case Asset => "ASSET"
    case Tts => "TTS"
    case Render => "RENDER"
    case Validate => "VALIDATE"
    case Publish => "PUBLISH"
  }

  function RetrySummary(stage: Stage): string {
    "manually retried from " + StageName(stage) + " by operator"
  }

  datatype Action =
    | Cancel
    | Approve
    | Reject(reason: string, stage: Option<Stage>, now: int)
    | RetryFromStage(stage: Option<Stage>, now: int)
    | Worker(event: Event<JobStatus, JobField, Value>)

  function RetryArgs(stage: Stage, now: int, code: string, summary: string): map<JobField, Option<Value>> {
    map[RetryTargetStage := Some(StageValue(stage)), NextRetryAt := Some(TimeValue(now)),
        FailureCode := Some(TextValue(code)), FailureSummary := Some(TextValue(summary))]
  }

  /** A stage name outside RESUMABLE, or no stage at all, is refused before the job is touched. */
  predicate Resumable(stage: Option<Stage>) {
    stage.Some? && stage.value in RESUMABLE
  }

  predicate Accepts(j: JobState, a: Action) {
    match a
    case Cancel => j.row.status !in {Completed, Failed, Cancelled}
    case Approve => j.row.status == ReviewRequired
    case Reject(_, stage, _) => j.row.status == ReviewRequired && Resumable(stage)
    case RetryFromStage(stage, _) => j.row.status == Failed && Resumable(stage)
    case Worker(_) => true
  }

  /** The table events an accepted action performs, in order. */
  function Events(j: JobState, a: Action): seq<Event<JobStatus, JobField, Value>>
    requires Accepts(j, a)
  {
    match a
    case Cancel =>
      if j.row.status in IMMEDIATE_CANCEL && !j.locked then [Transition(JobStatus.Cancelled, map[])] else []
    case Approve => [Transition(Ready, map[]), Transition(Completed, map[])]
    case Reject(reason, stage, now) => [Transition(RetryWait, RetryArgs(stage.value, now, "USER_REJECTED", reason))]
    case RetryFromStage(stage, now) =>
      [Transition(RetryWait, RetryArgs(stage.value, now, "MANUAL_RETRY", RetrySummary(stage.value)))]
    case Worker(e) => [e]
  }

  /** Specification: refused actions leave the job alone, accepted ones run their events. */
  function Next(j: JobState, a: Action): JobState {
    if !Accepts(j, a) then j
    else
      var moved := j.(row := Run(TABLE, j.row, Events(j, a)));
      match a
      case Cancel => moved.(cancelRequested := true)
      case Reject(_, _, _) => moved.(attemptNumber := j.attemptNumber + 1, retryCount := 0)
      case RetryFromStage(_, _) => moved.(retryCount := 0)
      case _ => moved
  }

  function After(j: JobState, actions: seq<Action>): JobState {
    if actions == [] then j else Next(After(j, actions[..|actions| - 1]), actions[|actions| - 1])
  }

  lemma RunOfOne(row: JobRow, e: Event<JobStatus, JobField, Value>)
    ensures Run(TABLE, row, [e]) == Step(TABLE, row, e)
  {
    assert [e][..0] == [];
    assert Run(TABLE, row, [e][..0]) == row;
  }

  lemma RunOfTwo(row: JobRow, e: Event<JobStatus, JobField, Value>, f: Event<JobStatus, JobField, Value>)
    ensures Run(TABLE, row, [e, f]) == Step(TABLE, Step(TABLE, row, e), f)
  {
    assert [e, f][..1] == [e];
    RunOfOne(row, e);
  }

  /** What each accepted user action leaves behind; none of them is ever refused by the table. */
  lemma AcceptedActionsLand(j: JobState, a: Action)
    requires Accepts(j, a) && !a.Worker?
    ensures var end := Next(j, a);
            match a
            case Cancel =>
              && end.cancelRequested
              && end.row.status == (if j.row.status in IMMEDIATE_CANCEL && !j.locked then Cancelled else j.row.status)
            case Approve => end.row.status == Completed
            case Reject(_, stage, _) =>
              && end.row.status == RetryWait && Required(RetryWait) <= end.row.fields.Keys
              && end.row.fields[RetryTargetStage] == StageValue(stage.value)
              && end.attemptNumber == j.attemptNumber + 1 && end.retryCount == 0
            case RetryFromStage(stage, _) =>
              && end.row.status == RetryWait && Required(RetryWait) <= end.row.fields.Keys
              && end.row.fields[RetryTargetStage] == StageValue(stage.value)
              && end.attemptNumber == j.attemptNumber && end.retryCount == 0
  {
    var events := Events(j, a);
    match a {
      case Cancel => if events != [] { RunOfOne(j.row, events[0]); }
      case Approve => RunOfTwo(j.row, events[0], events[1]);
      case Reject(_, stage, _) => RunOfOne(j.row, events[0]);
      case RetryFromStage(stage, _) => RunOfOne(j.row, events[0]);
    }
  }

  lemma {:induction false} RunAppend(row: JobRow, es: seq<Event<JobStatus, JobField, Value>>,
                                     fs: seq<Event<JobStatus, JobField, Value>>)
    ensures Run(TABLE, row, es + fs) == Run(TABLE, Run(TABLE, row, es), fs)
  {
    if fs == [] {
      assert es + fs == es;
    } else {
      var n := |fs| - 1;
      RunAppend(row, es, fs[..n]);
      assert (es + fs)[..|es + fs| - 1] == es + fs[..n];
    }
  }

  /** Every run of the service and the worker is a run of the table, so the table's invariants hold of it. */
  lemma {:induction false} ServiceRunsAreTableRuns(j: JobState, actions: seq<Action>)
    returns (events: seq<Event<JobStatus, JobField, Value>>)
    ensures After(j, actions).row == Run(TABLE, j.row, events)
    ensures RequiredPresent(TABLE, j.row) ==> RequiredPresent(TABLE, After(j, actions).row)
    ensures j.row.status in {Completed, Cancelled} ==> After(j, actions).row.status == j.row.status
  {
    events := [];
    if actions != [] {
      var n := |actions| - 1;
      var before := After(j, actions[..n]);
      events := ServiceRunsAreTableRuns(j, actions[..n]);
      if Accepts(before, actions[n]) {
        RunAppend(j.row, events, Events(before, actions[n]));
        events := events + Events(before, actions[n]);
      }
    }
    if RequiredPresent(TABLE, j.row) { RunKeepsRequired(TABLE, j.row, events); }
    if j.row.status in {Completed, Cancelled} { RunStaysInside(TABLE, {j.row.status}, j.row, events); }
  }

  /** The job waits for this stage, due at once, and says why; its other columns are as they were. */
  ghost predicate Waits(before: JobRow, after: JobRow, stage: Stage, now: int, code: string, summary: string) {
    && after.status == RetryWait
    && after.fields == before.fields[RetryTargetStage := StageValue(stage)][NextRetryAt := TimeValue(now)][
                         FailureCode := TextValue(code)][FailureSummary := TextValue(summary)]
  }

  lemma RetryWaits(row: JobRow, stage: Stage, now: int, code: string, summary: string)
    requires row.status in {ReviewRequired, Failed}
    ensures var args := RetryArgs(stage, now, code, summary);
            var applied := Apply(TABLE, row, RetryWait, args);
            && applied.Moved? && Waits(row, applied.row, stage, now, code, summary)
            && Run(TABLE, row, [Transition(RetryWait, args)]) == applied.row
  {
    var args := RetryArgs(stage, now, code, summary);
    RunOfOne(row, Transition(RetryWait, args));
    var fields := SetAll(row.fields, args);
    assert fields == row.fields[RetryTargetStage := StageValue(stage)][NextRetryAt := TimeValue(now)][
                       FailureCode := TextValue(code)][FailureSummary := TextValue(summary)];
  }

  class Job {
    var row: JobRow
    var attemptNumber: nat
    var retryCount: nat
    var cancelRequested: bool
    var locked: bool

    function State(): JobState
      reads this
    {
      JobState(row, attemptNumber, retryCount, cancelRequested, locked)
    }

    constructor ()
      ensures State() == JobState(Row(Created, map[]), 1, 0, false, false)
    {
      row := Row(Created, map[]);
      attemptNumber, retryCount, cancelRequested, locked := 1, 0, false, false;
    }

    method RequestCancel() returns (outcome: Outcome)
      modifies this
      ensures State() == Next(old(State()), Cancel)
      ensures outcome == if old(row.status) in {Completed, Failed, JobStatus.Cancelled} then InvalidAction else Done
      ensures row.fields == old(row.fields) && cancelRequested == (old(cancelRequested) || outcome == Done)
      // Nobody is working on an unlocked job in these statuses.
      ensures row.status ==
              if old(row.status) in {Created, Queued, ReviewRequired, RetryWait} && !old(locked)
              then JobStatus.Cancelled else old(row.status)
    {
      if row.status in {Completed, Failed, Cancelled} { return InvalidAction; }
      if row.status in IMMEDIATE_CANCEL && !locked {
        RunOfOne(row, Transition(JobStatus.Cancelled, map[]));
        match Apply(TABLE, row, JobStatus.Cancelled, map[]) {
          case Moved(next) => row := next;
          case _ => return TransitionRefused;
        }
      }
      cancelRequested := true;
      return Done;
    }

    method Approve() returns (outcome: Outcome)
      modifies this
      ensures State() == Next(old(State()), Action.Approve)
      ensures outcome == if old(row.status) == ReviewRequired then Done else InvalidAction
      ensures row == if old(row.status) == ReviewRequired then old(row).(status := Completed) else old(row)
    {
      if row.status != ReviewRequired { return InvalidAction; }
      RunOfTwo(row, Transition(Ready, map[]), Transition(Completed, map[]));
      var ready := Apply(TABLE, row, Ready, map[]);
      if !ready.Moved? { return TransitionRefused; }
      var completed := Apply(TABLE, ready.row, Completed, map[]);
      if !completed.Moved? { return TransitionRefused; }
      row := completed.row;
      return Done;
    }

    method Reject(reason: string, stage: Option<Stage>, now: int) returns (outcome: Outcome)
      modifies this
      ensures State() == Next(old(State()), Action.Reject(reason, stage, now))
      ensures outcome == Done <==>
                && old(row.status) == ReviewRequired
                && stage.Some? && stage.value in {Script, Policy, Asset, Tts, Render, Validate}
      ensures outcome in {Done, InvalidAction}
      ensures outcome == Done ==>
                && Waits(old(row), row, stage.value, now, "USER_REJECTED", reason)
                && attemptNumber == old(attemptNumber) + 1 && retryCount == 0
    {
      if row.status != ReviewRequired { return InvalidAction; }
      if stage.None? || stage.value !in RESUMABLE { return InvalidAction; }
      RetryWaits(row, stage.value, now, "USER_REJECTED", reason);
      var args := RetryArgs(stage.value, now, "USER_REJECTED", reason);
      var applied := Apply(TABLE, row, RetryWait, args);
      if !applied.Moved? { return TransitionRefused; }
      row := applied.row;
      attemptNumber := attemptNumber + 1;
      retryCount := 0;
      return Done;
    }

    method RetryFromStage(stage: Option<Stage>, now: int) returns (outcome: Outcome)
      modifies this
      ensures State() == Next(old(State()), Action.RetryFromStage(stage, now))
      ensures outcome == Done <==>
                && old(row.status) == Failed
                && stage.Some? && stage.value in {Script, Policy, Asset, Tts, Render, Validate}
      ensures outcome in {Done, InvalidAction}
      ensures outcome == Done ==>
                && Waits(old(row), row, stage.value, now, "MANUAL_RETRY", RetrySummary(stage.value))
                && attemptNumber == old(attemptNumber) && retryCount == 0
    {
      if row.status != Failed { return InvalidAction; }
      if stage.None? || stage.value !in RESUMABLE { return InvalidAction; }
      RetryWaits(row, stage.value, now, "MANUAL_RETRY", RetrySummary(stage.value));
      var args := RetryArgs(stage.value, now, "MANUAL_RETRY", RetrySummary(stage.value));
      var applied := Apply(TABLE, row, RetryWait, args);
      if !applied.Moved? { return TransitionRefused; }
      row := applied.row;
      retryCount := 0;
      return Done;
    }
  }
}
