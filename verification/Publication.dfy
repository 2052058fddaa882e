/**
 Publication recovery: core/publish_reconciliation.py, core/publish_retry.py and the cancel of
 core/publish_service.py.

 The provider, the durable journal and the clock are a `Remote`: whatever one service call can learn from
 outside. It is arbitrary, and a different one may be supplied to every call.
 */
module Publication {
  import opened Prelude
  import opened StateMachine
  import opened PublicationMachine

  datatype Value = Target(status: PublicationStatus) | Time(at: int) | Text(text: string)
  type PubRow = StateMachine.Row<PublicationStatus, PublicationField, Value>

  datatype State = State(
    row: PubRow,
    videoId: Option<string>,
    totalBytes: Option<nat>,
    bytesUploaded: nat,
    url: Option<string>,
    processingCompletedAt: Option<int>,
    cancelRequested: bool,
    lockedBy: Option<string>,
    leaseToken: Option<string>,
    storedSession: Option<string>  // the session URI kept outside the database
  )

  datatype JournalEvent = JournalEvent(event: string, videoId: Option<string>)

  datatype StatusAnswer =
    | Resolved(processingStatus: string, url: Option<string>, failureReason: Option<string>)
    | StatusAuthError
    | StatusTransient
    | StatusOtherError

  datatype OffsetAnswer =
    | Offset(at: Option<nat>)
    | OffsetExpired
    | OffsetAuthError
    | OffsetTransient
    | OffsetOtherError

  /** What can block a publication before it has ever uploaded anything. */
  type Block = kind: Kind |
    kind in {CredentialsUnavailable, ManualReviewRequired, AppReviewRequired, PublishingLimitReached}
    witness CredentialsUnavailable

  /** What the provider-specific eligibility probe of a never-uploaded publication reports. */
  datatype ProbeAnswer = NothingFound | Blocked(kind: Block) | ProbeOtherError

  datatype Remote = Remote(
    status: string -> StatusAnswer,
    journal: seq<JournalEvent>,
    offset: OffsetAnswer,
    hasProbe: bool,
    probe: ProbeAnswer,
    now: int
  )

  datatype Kind =
    | AlreadyConsistent | RecoveredRemoteVideo | UploadIncomplete | UploadSessionExpired | RemoteVideoMissing
    | CredentialsUnavailable | ManualReviewRequired | AmbiguousRemoteState | AppReviewRequired
    | PublishingLimitReached

  datatype Call = GetProcessingStatus(id: string) | QueryUploadOffset | GetCreatorInfo
                | CreateUploadSession | UploadChunk

  datatype Result = Reported(kind: Kind) | Raised
  datatype Reconciled = Reconciled(state: State, result: Result, calls: seq<Call>)

  /** Python truth of an optional string. */
  predicate Truthy(o: Option<string>) {
    o.Some? && o.value != ""
  }

  function TextOf(row: PubRow, f: PublicationField): Option<string> {
    if f in row.fields && row.fields[f].Text? then Some(row.fields[f].text) else None
  }

  predicate IsCompletion(e: JournalEvent) {
    e.event == "upload_completed" && Truthy(e.videoId)
  }

  /** The ids of the journalled completed uploads, in append order. */
  function CompletedIds(journal: seq<JournalEvent>): (ids: seq<string>)
    ensures "" !in ids
    ensures forall id :: id in ids <==> exists e :: e in journal && IsCompletion(e) && e.videoId == Some(id)
  {
    if journal == [] then []
    else
      var e := journal[|journal| - 1];
      assert journal == journal[..|journal| - 1] + [e];
      CompletedIds(journal[..|journal| - 1]) + if IsCompletion(e) then [e.videoId.value] else []
  }

  function Cut(text: string, limit: nat): string {
    if |text| <= limit then text else text[..limit]
  }

  /** The arguments of the FAILED transition a repair makes. */
  function FailedArgs(remote: StatusAnswer): map<PublicationField, Option<Value>>
    requires remote.Resolved?
  {
    var why := if Truthy(remote.failureReason) then remote.failureReason.value else remote.processingStatus;
    map[FailureCode := Some(Text("PROCESSING_FAILED")), FailureSummary := Some(Text(Cut(why, 500)))]
  }

  /** A transition that is refused raises: the row keeps its status. */
  function Moving(row: PubRow, next: PublicationStatus, args: map<PublicationField, Option<Value>>): (PubRow, bool) {
    match Apply(TABLE, row, next, args)
    case Moved(r) => (r, true)
    case _ => (row, false)
  }

  /** UPLOADING and UPLOAD_COMPLETED are first walked forward to PROCESSING. */
  function WalkToProcessing(row: PubRow): PubRow {
    var r1 := if row.status == Uploading then Moving(row, UploadCompleted, map[]).0 else row;
    if r1.status == UploadCompleted then Moving(r1, Processing, map[]).0 else r1
  }

  function Repaired(p: State, id: string, remote: StatusAnswer, now: int): (State, Result)
    requires remote.Resolved?
  {
    var found := p.(videoId := Some(id),
                    bytesUploaded := if p.totalBytes.Some? then p.totalBytes.value else p.bytesUploaded,
                    row := WalkToProcessing(p.row));
    if remote.processingStatus == "succeeded" then
      var done := found.(url := if Truthy(remote.url) then remote.url else found.url,
                         processingCompletedAt := Some(now));
      var (row, ok) := Moving(done.row, Published, map[PublishedAt := Some(Time(now))]);
      (done.(row := row), if ok then Reported(RecoveredRemoteVideo) else Raised)
    else if remote.processingStatus in {"failed", "terminated"} then
      var (row, ok) := Moving(found.row, Failed, FailedArgs(remote));
      (found.(row := row), if ok then Reported(RecoveredRemoteVideo) else Raised)
    else (found, Reported(RecoveredRemoteVideo))
  }

  /** The leased half of reconciliation: no video id is on record yet. */
  function ReconcileLeased(p: State, r: Remote): Reconciled {
    var ids := CompletedIds(r.journal);
    if ids != [] then
      var id := ids[|ids| - 1];
      var calls := [GetProcessingStatus(id)];
      match r.status(id)
      case StatusAuthError => Reconciled(p, Reported(CredentialsUnavailable), calls)
      case StatusTransient => Reconciled(p, Reported(ManualReviewRequired), calls)
      case StatusOtherError => Reconciled(p, Raised, calls)
      case Resolved(_, _, _) => var (q, result) := Repaired(p, id, r.status(id), r.now); Reconciled(q, result, calls)
    else if p.storedSession.None? || p.totalBytes.None? then
      var calls := if r.hasProbe then [GetCreatorInfo] else [];
      if r.hasProbe && r.probe.Blocked? then Reconciled(p, Reported(r.probe.kind), calls)
      else if r.hasProbe && r.probe.ProbeOtherError? then Reconciled(p, Raised, calls)
      else Reconciled(p, Reported(UploadIncomplete), calls)
    else
      match r.offset
      case OffsetExpired =>
        Reconciled(p.(storedSession := None), Reported(UploadSessionExpired), [QueryUploadOffset])
      case OffsetAuthError => Reconciled(p, Reported(CredentialsUnavailable), [QueryUploadOffset])
      case OffsetTransient => Reconciled(p, Reported(ManualReviewRequired), [QueryUploadOffset])
      case OffsetOtherError => Reconciled(p, Raised, [QueryUploadOffset])
      case Offset(at) =>
        Reconciled(p, Reported(if at.None? || at.value >= p.totalBytes.value then AmbiguousRemoteState
                               else UploadIncomplete), [QueryUploadOffset])
  }

  function Reconcile(p: State, r: Remote): Reconciled {
    if p.row.status in TERMINAL then Reconciled(p, Reported(AlreadyConsistent), [])
    else if Truthy(p.videoId) then
      var calls := [GetProcessingStatus(p.videoId.value)];
      match r.status(p.videoId.value)
      case StatusAuthError => Reconciled(p, Reported(CredentialsUnavailable), calls)
      case StatusTransient => Reconciled(p, Reported(RemoteVideoMissing), calls)
      case StatusOtherError => Reconciled(p, Raised, calls)
      case Resolved(_, _, _) => Reconciled(p, Reported(AlreadyConsistent), calls)
    else if p.lockedBy.Some? then Reconciled(p, Reported(ManualReviewRequired), [])
    else
      // The lease is handed back and the session committed whatever happens, an exception included.
      var leased := ReconcileLeased(p, r);
      leased.(state := leased.state.(lockedBy := None, leaseToken := None))
  }

  // ---- retry -----------------------------------------------------------------------------------------

  const RETRYABLE: set<PublicationStatus> := {Failed, AuthRequired, QuotaBlocked, RetryWait}

  function StageTarget(stage: string): Option<PublicationStatus> {
    if stage == "SESSION" then Some(ReadyToUpload)
    else if stage == "UPLOAD" then Some(Uploading)
    else if stage == "PROCESSING" then Some(Processing)
    else None
  }

  function AutoTarget(p: State): PublicationStatus {
    if Truthy(p.videoId) then Processing
    else if Truthy(TextOf(p.row, UploadSessionReference)) then Uploading
    else ReadyToUpload
  }

  /** What the caller asked for and what the fresh checks found. */
  datatype RetryRequest = RetryRequest(stage: Option<string>, eligible: bool, fingerprintMatches: bool, now: int)

  function RetryTarget(p: State, q: RetryRequest): Option<PublicationStatus> {
    if q.stage.None? then Some(AutoTarget(p))
    else if StageTarget(q.stage.value) == Some(Processing) && !Truthy(p.videoId) then None
    else StageTarget(q.stage.value)
  }

  function OrText(row: PubRow, f: PublicationField, otherwise: string): Option<Value> {
    Some(Text(if Truthy(TextOf(row, f)) then TextOf(row, f).value else otherwise))
  }

  function RetryArgs(row: PubRow, target: PublicationStatus, now: int): map<PublicationField, Option<Value>> {
    map[RetryTargetStatus := Some(Target(target)), NextRetryAt := Some(Time(now)),
        FailureCode := OrText(row, FailureCode, "MANUAL_RETRY"),
        FailureSummary := OrText(row, FailureSummary, "manual retry requested")]
  }

  /** None is a refusal: nothing is committed. */
  function Retry(p: State, q: RetryRequest): Option<State> {
    var target := RetryTarget(p, q);
    if p.row.status !in RETRYABLE || target.None? || !q.eligible || !q.fingerprintMatches then None
    else if p.row.status == RetryWait then
      var waiting := p.row.fields[NextRetryAt := Time(q.now)];
      var fields := if q.stage.Some? then waiting[RetryTargetStatus := Target(target.value)] else waiting;
      if RetryTargetStatus !in fields then None else Some(p.(row := p.row.(fields := fields)))
    else
      match Apply(TABLE, p.row, RetryWait, RetryArgs(p.row, target.value, q.now))
      case Moved(row) => Some(p.(row := row))
      case _ => None
  }

  // ---- cancel ----------------------------------------------------------------------------------------

  const IMMEDIATE_CANCEL: set<PublicationStatus> :=
    {Created, EligibilityChecking, ReadyToUpload, UploadSessionCreated, UploadCompleted, Processing, RetryWait,
     AuthRequired, QuotaBlocked, ReviewRequired}

  /** None is a refusal. */
  function CancelPublication(p: State): Option<State> {
    if p.row.status in {Published, Cancelled, Failed} then None
    else if p.row.status in IMMEDIATE_CANCEL && p.lockedBy.None? then
      match Apply(TABLE, p.row, Cancelled, map[])
      case Moved(row) => Some(p.(row := row, cancelRequested := true))
      case _ => None
    else Some(p.(cancelRequested := true))
  }

  // ---- the row, updated in place -------------------------------------------------------------------------

  class PublicationRow {
    var row: PubRow
    var videoId: Option<string>
    var totalBytes: Option<nat>
    var bytesUploaded: nat
    var url: Option<string>
    var processingCompletedAt: Option<int>
    var cancelRequested: bool
    var lockedBy: Option<string>
    var leaseToken: Option<string>
    var storedSession: Option<string>

    function Snapshot(): State
      reads this
    {
      State(row, videoId, totalBytes, bytesUploaded, url, processingCompletedAt, cancelRequested,
            lockedBy, leaseToken, storedSession)
    }

    /** A freshly created publication has nothing on record. */
    constructor ()
      ensures Snapshot() == State(Row(Created, map[]), None, None, 0, None, None, false, None, None, None)
    {
      row := Row(Created, map[]);
      videoId, totalBytes, bytesUploaded, url, processingCompletedAt := None, None, 0, None, None;
      cancelRequested, lockedBy, leaseToken, storedSession := false, None, None, None;
    }

    method ApplyTransition(next: PublicationStatus, args: map<PublicationField, Option<Value>>) returns (ok: bool)
      modifies this`row
      ensures (row, ok) == Moving(old(row), next, args)
    {
      match Apply(TABLE, row, next, args) {
        case Moved(r) => row := r; ok := true;
        case _ => ok := false;
      }
    }

    method WalkForward()
      modifies this`row
      ensures row == WalkToProcessing(old(row))
    {
      var ok;
      if row.status == Uploading { ok := ApplyTransition(UploadCompleted, map[]); }
      if row.status == UploadCompleted { ok := ApplyTransition(Processing, map[]); }
    }

    method Repair(id: string, remote: StatusAnswer, now: int) returns (result: Result)
      requires remote.Resolved?
      modifies this
      ensures (Snapshot(), result) == Repaired(old(Snapshot()), id, remote, now)
    {
      videoId := Some(id);
      if totalBytes.Some? { bytesUploaded := totalBytes.value; }
      WalkForward();
      var ok;
      if remote.processingStatus == "succeeded" {
        if Truthy(remote.url) { url := remote.url; }
        processingCompletedAt := Some(now);
        ok := ApplyTransition(Published, map[PublishedAt := Some(Time(now))]);
        if !ok { return Raised; }
      } else if remote.processingStatus in {"failed", "terminated"} {
        ok := ApplyTransition(Failed, FailedArgs(remote));
        if !ok { return Raised; }
      }
      return Reported(RecoveredRemoteVideo);
    }

    method ReconcileUnlocked(r: Remote) returns (result: Result, calls: seq<Call>)
      modifies this
      ensures Reconciled(Snapshot(), result, calls) == ReconcileLeased(old(Snapshot()), r)
      // The provider's answer about an upload begun before: part of it, all of it, or a session that is gone.
      ensures CompletedIds(r.journal) == [] && old(storedSession).Some? && old(totalBytes).Some? ==>
                && (result == Reported(UploadIncomplete) <==>
                      r.offset.Offset? && r.offset.at.Some? && r.offset.at.value < old(totalBytes).value)
                && (result == Reported(AmbiguousRemoteState) <==>
                      r.offset.Offset? && (r.offset.at.None? || r.offset.at.value >= old(totalBytes).value))
                && (result == Reported(UploadSessionExpired) <==> r.offset == OffsetExpired)
                && storedSession == (if r.offset == OffsetExpired then None else old(storedSession))
    {
      var ids := CompletedIds(r.journal);
      if ids != [] {
        var id := ids[|ids| - 1];
        calls := [GetProcessingStatus(id)];
        match r.status(id) {
          case StatusAuthError => result := Reported(CredentialsUnavailable);
          case StatusTransient => result := Reported(ManualReviewRequired);
          case StatusOtherError => result := Raised;
          case Resolved(_, _, _) => result := Repair(id, r.status(id), r.now);
        }
        return;
      }
      if storedSession.None? || totalBytes.None? {
        if r.hasProbe {
          calls := [GetCreatorInfo];
          match r.probe {
            case Blocked(kind) => return Reported(kind), calls;
            case ProbeOtherError => return Raised, calls;
            case NothingFound =>
          }
          return Reported(UploadIncomplete), calls;
        }
        return Reported(UploadIncomplete), [];
      }
      calls := [QueryUploadOffset];
      match r.offset {
        case OffsetExpired => storedSession := None; result := Reported(UploadSessionExpired);
        case OffsetAuthError => result := Reported(CredentialsUnavailable);
        case OffsetTransient => result := Reported(ManualReviewRequired);
        case OffsetOtherError => result := Raised;
        case Offset(at) =>
          if at.None? || at.value >= totalBytes.value { result := Reported(AmbiguousRemoteState); }
          else { result := Reported(UploadIncomplete); }
      }
    }

    method ReconcilePublication(r: Remote, worker: string, token: string) returns (result: Result, calls: seq<Call>)
      modifies this
      ensures Reconciled(Snapshot(), result, calls) == Reconcile(old(Snapshot()), r)
    {
      if row.status in TERMINAL { return Reported(AlreadyConsistent), []; }
      if Truthy(videoId) {
        calls := [GetProcessingStatus(videoId.value)];
        match r.status(videoId.value) {
          case StatusAuthError => result := Reported(CredentialsUnavailable);
          case StatusTransient => result := Reported(RemoteVideoMissing);
          case StatusOtherError => result := Raised;
          case Resolved(_, _, _) => result := Reported(AlreadyConsistent);
        }
        return;
      }
      if lockedBy.Some? { return Reported(ManualReviewRequired), []; }
      lockedBy, leaseToken := Some(worker), Some(token);
      ghost var leased := Snapshot();
      result, calls := ReconcileUnlocked(r);
      LeaseIsNotRead(old(Snapshot()), leased, r);
      lockedBy, leaseToken := None, None;
    }

    method RetryPublication(q: RetryRequest) returns (accepted: bool)
      modifies this
      ensures accepted <==> Retry(old(Snapshot()), q).Some?
      ensures Snapshot() == if accepted then Retry(old(Snapshot()), q).value else old(Snapshot())
    {
      if row.status !in RETRYABLE { return false; }
      var target := AutoTarget(Snapshot());
      if q.stage.Some? {
        var named := StageTarget(q.stage.value);
        if named.None? { return false; }
        target := named.value;
        if target == Processing && !Truthy(videoId) { return false; }
      }
      if !q.eligible || !q.fingerprintMatches { return false; }
      if row.status == RetryWait {
        var fields := row.fields[NextRetryAt := Time(q.now)];
        if q.stage.Some? { fields := fields[RetryTargetStatus := Target(target)]; }
        if RetryTargetStatus !in fields { return false; }
        row := row.(fields := fields);
      } else {
        var ok := ApplyTransition(RetryWait, RetryArgs(row, target, q.now));
        return ok;
      }
      return true;
    }

    method Cancel() returns (accepted: bool)
      modifies this
      ensures accepted <==> CancelPublication(old(Snapshot())).Some?
      ensures Snapshot() == if accepted then CancelPublication(old(Snapshot())).value else old(Snapshot())
    {
      if row.status in {Published, Cancelled, Failed} { return false; }
      if row.status in IMMEDIATE_CANCEL && lockedBy.None? {
        var ok := ApplyTransition(Cancelled, map[]);
        if !ok { return false; }
      }
      cancelRequested := true;
      return true;
    }
  }

  /** The leased half reads neither lease column, so holding the lease changes nothing but those columns. */
  lemma LeaseIsNotRead(free: State, held: State, r: Remote)
    requires free == held.(lockedBy := free.lockedBy, leaseToken := free.leaseToken)
    ensures ReconcileLeased(held, r).result == ReconcileLeased(free, r).result
    ensures ReconcileLeased(held, r).calls == ReconcileLeased(free, r).calls
    ensures ReconcileLeased(held, r).state.(lockedBy := None, leaseToken := None)
         == ReconcileLeased(free, r).state.(lockedBy := None, leaseToken := None)
  {
  }
}
