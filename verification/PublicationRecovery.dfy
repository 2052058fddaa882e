/** What recovery guarantees, over any run of reconcile, retry and cancel against any remote answers. */
module PublicationRecovery {
  import opened Prelude
  import opened StateMachine
  import opened PublicationMachine
  import opened Publication

  datatype Action = DoReconcile(remote: Remote) | DoRetry(request: RetryRequest) | DoCancel

  function Next(p: State, a: Action): State {
    match a
    case DoReconcile(r) => Reconcile(p, r).state
    case DoRetry(q) => (match Retry(p, q) case Some(s) => s case None => p)
    case DoCancel => (match CancelPublication(p) case Some(s) => s case None => p)
  }

  function After(p: State, actions: seq<Action>): State {
    if actions == [] then p else Next(After(p, actions[..|actions| - 1]), actions[|actions| - 1])
  }

  /** The id a reconcile may trust: the last journalled completion, which the provider resolves. */
  predicate Confirmed(r: Remote, id: string) {
    var ids := CompletedIds(r.journal);
    ids != [] && ids[|ids| - 1] == id && r.status(id).Resolved?
  }

  /** RETRY_WAIT rows carry a target the table allows leaving for. */
  predicate TargetLegal(p: State) {
    p.row.status == RetryWait ==>
      && RetryTargetStatus in p.row.fields && p.row.fields[RetryTargetStatus].Target?
      && p.row.fields[RetryTargetStatus].status in Allowed(RetryWait)
  }

  // ---- repair ----------------------------------------------------------------------------------------

  lemma WalkLands(row: PubRow)
    ensures WalkToProcessing(row).fields == row.fields
    ensures WalkToProcessing(row).status ==
            if row.status in {Uploading, UploadCompleted, Processing} then Processing else row.status
  {
    assert forall args: map<PublicationField, Option<Value>> ::
        args == map[] ==> SetAll(row.fields, args) == row.fields;
  }

  lemma RepairAfterSuccess(p: State, id: string, remote: StatusAnswer, now: int)
    requires remote.Resolved? && remote.processingStatus == "succeeded"
    ensures var (q, result) := Repaired(p, id, remote, now);
            && (result == Raised <==> p.row.status !in {Uploading, UploadCompleted, Processing})
            && (result != Raised ==> q.row.status == Published && PublishedAt in q.row.fields)
            && (result == Raised ==> q.row == WalkToProcessing(p.row))
  {
    WalkLands(p.row);
  }

  lemma RepairAfterFailure(p: State, id: string, remote: StatusAnswer, now: int)
    requires remote.Resolved? && remote.processingStatus in {"failed", "terminated"}
    ensures var (q, result) := Repaired(p, id, remote, now);
            && (result == Raised <==> p.row.status in {Created, Published, ReviewRequired, Failed, Cancelled})
            && (result != Raised ==>
                  q.row.status == Failed && {FailureCode, FailureSummary} <= q.row.fields.Keys)
            && (result == Raised ==> q.row == WalkToProcessing(p.row))
  {
    WalkLands(p.row);
  }

  /** Exactly when a confirmed video trips the table, and where the row stands when it does not. */
  lemma RepairRaisesExactlyWhen(p: State, id: string, remote: StatusAnswer, now: int)
    requires remote.Resolved?
    ensures var (q, result) := Repaired(p, id, remote, now);
            var ending := remote.processingStatus;
            && q.videoId == Some(id)
            && (result == Raised <==>
                 || (ending == "succeeded" && p.row.status !in {Uploading, UploadCompleted, Processing})
                 || (ending in {"failed", "terminated"}
                     && p.row.status in {Created, Published, ReviewRequired, Failed, Cancelled}))
            && (result != Raised ==>
                 && result == Reported(RecoveredRemoteVideo)
                 && (ending == "succeeded" ==> q.row.status == Published && PublishedAt in q.row.fields)
                 && (ending in {"failed", "terminated"} ==>
                       q.row.status == Failed && {FailureCode, FailureSummary} <= q.row.fields.Keys))
            && (result == Raised || ending !in {"succeeded", "failed", "terminated"} ==>
                 q.row == WalkToProcessing(p.row))
  {
    if remote.processingStatus == "succeeded" { RepairAfterSuccess(p, id, remote, now); }
    else if remote.processingStatus in {"failed", "terminated"} { RepairAfterFailure(p, id, remote, now); }
  }

  // ---- the video id ----------------------------------------------------------------------------------

  /** One step: the id is kept, or it was unknown and is now the journalled id the provider confirmed. */
  lemma VideoIdStep(p: State, a: Action)
    ensures var q := Next(p, a);
            || q.videoId == p.videoId
            || (!Truthy(p.videoId) && a.DoReconcile? && p.row.status !in TERMINAL
                && q.videoId.Some? && Confirmed(a.remote, q.videoId.value))
  {
  }

  /** The exact condition: a reconcile learns an id iff it takes the lease and the last completion resolves. */
  lemma LearnsIdExactlyWhen(p: State, r: Remote)
    requires !Truthy(p.videoId)
    ensures Truthy(Reconcile(p, r).state.videoId) <==>
            && p.row.status !in TERMINAL && p.lockedBy.None?
            && exists id :: Confirmed(r, id)
  {
    var ids := CompletedIds(r.journal);
    if ids != [] {
      assert ids[|ids| - 1] in ids;
      if r.status(ids[|ids| - 1]).Resolved? { assert Confirmed(r, ids[|ids| - 1]); }
    }
  }

  /** The k-th action set this id: it reconciled a publication without one, and the provider confirmed the id then. */
  ghost predicate SetAt(p: State, actions: seq<Action>, k: nat, id: Option<string>) {
    && k < |actions| && actions[k].DoReconcile? && id.Some? && Confirmed(actions[k].remote, id.value)
    && !Truthy(After(p, actions[..k]).videoId) && After(p, actions[..k + 1]).videoId == id
  }

  lemma SetAtStays(p: State, actions: seq<Action>, n: nat, k: nat, id: Option<string>)
    requires n <= |actions| && SetAt(p, actions[..n], k, id)
    ensures SetAt(p, actions, k, id)
  {
    assert actions[..n][..k] == actions[..k] && actions[..n][..k + 1] == actions[..k + 1];
  }

  /** Over any run a known id never changes, and an id that appears was unknown, confirmed and set at one step. */
  lemma {:induction false} VideoIdOverRuns(p: State, actions: seq<Action>)
    ensures Truthy(p.videoId) ==> After(p, actions).videoId == p.videoId
    ensures var id := After(p, actions).videoId;
            id == p.videoId || exists k :: SetAt(p, actions, k, id)
  {
    if actions != [] {
      var n := |actions| - 1;
      var before := After(p, actions[..n]);
      VideoIdOverRuns(p, actions[..n]);
      VideoIdStep(before, actions[n]);
      var id := After(p, actions).videoId;
      if id == before.videoId {
        if id != p.videoId {
          var k :| SetAt(p, actions[..n], k, id);
          SetAtStays(p, actions, n, k, id);
        }
      } else {
        assert actions[..n + 1] == actions;
        assert SetAt(p, actions, n, id);
      }
    }
  }

  /**
   Reconciliation only ever reads from the provider, and only about the ids it may trust: it has no call that uploads,
   and retry and cancel call nothing at all.
   */
  lemma NeverStartsAnUpload(p: State, r: Remote)
    ensures forall c :: c in Reconcile(p, r).calls ==>
              match c
              case GetProcessingStatus(id) =>
                if Truthy(p.videoId) then id == p.videoId.value
                else exists e :: e in r.journal && IsCompletion(e) && e.videoId == Some(id)
              case QueryUploadOffset => true
              case GetCreatorInfo => true
              case _ => false
  {
    var ids := CompletedIds(r.journal);
    assert ids != [] ==> ids[|ids| - 1] in ids;
  }

  /** A reconcile that took the lease hands the row back, even when it raises; otherwise the lease is untouched. */
  lemma LeaseAlwaysReturned(p: State, r: Remote)
    ensures var q := Reconcile(p, r).state;
            if p.row.status !in TERMINAL && !Truthy(p.videoId) && p.lockedBy.None?
            then q.lockedBy.None? && q.leaseToken.None?
            else q == p
  {
  }

  /** Once an id is known, asking again while the provider still resolves it changes nothing. */
  lemma RecoveryIsIdempotent(p: State, r: Remote, again: Remote)
    requires !Truthy(p.videoId) && Truthy(Reconcile(p, r).state.videoId)
    requires forall id :: r.status(id).Resolved? ==> again.status(id).Resolved?
    ensures var q := Reconcile(p, r).state;
            Reconcile(q, again).state == q && Reconcile(q, again).result == Reported(AlreadyConsistent)
  {
    VideoIdStep(p, DoReconcile(r));
  }

  // ---- retry -----------------------------------------------------------------------------------------

  /** The exact acceptance condition of a manual retry. */
  lemma RetryAcceptedExactlyWhen(p: State, q: RetryRequest)
    requires RequiredPresent(TABLE, p.row)
    ensures Retry(p, q).Some? <==>
            && p.row.status in {Failed, AuthRequired, QuotaBlocked, RetryWait}
            && q.eligible && q.fingerprintMatches
            && (q.stage.Some? ==> q.stage.value in {"SESSION", "UPLOAD"}
                                  || (q.stage.value == "PROCESSING" && Truthy(p.videoId)))
  {
    if p.row.status in RETRYABLE && RetryTarget(p, q).Some? && p.row.status != RetryWait {
      var args := RetryArgs(p.row, RetryTarget(p, q).value, q.now);
      assert forall f :: f in Required(RetryWait) ==> Supplied(args, f);
    }
  }

  /** Where an accepted retry resumes: at the stage that was named, or at the first one whose work is not on record. */
  lemma RetryResumesAt(p: State, q: RetryRequest)
    requires Retry(p, q).Some?
    ensures RetryTarget(p, q).Some?
    ensures var target := RetryTarget(p, q).value;
            && (q.stage.None? ==>
                  target == if p.videoId.Some? && p.videoId.value != "" then Processing
                            else if Truthy(TextOf(p.row, UploadSessionReference)) then Uploading else ReadyToUpload)
            && (q.stage.Some? ==>
                  (q.stage.value, target) in
                    {("SESSION", ReadyToUpload), ("UPLOAD", Uploading), ("PROCESSING", Processing)})
            && (target == Processing ==> p.videoId.Some? && p.videoId.value != "")
  {
  }

  /** The text on record, or this one when there is none. */
  predicate KeepsOr(before: PubRow, after: PubRow, f: PublicationField, otherwise: string) {
    f in after.fields && after.fields[f] ==
      if f in before.fields && before.fields[f].Text? && before.fields[f].text != "" then before.fields[f]
      else Text(otherwise)
  }

  /** Every accepted retry waits with all its bookkeeping, due now, for a status the table lets it enter. */
  lemma AcceptedRetryWaits(p: State, q: RetryRequest)
    requires RequiredPresent(TABLE, p.row) && TargetLegal(p) && Retry(p, q).Some?
    ensures var end := Retry(p, q).value;
            && end == p.(row := end.row)
            && end.row.status == RetryWait && RequiredPresent(TABLE, end.row) && TargetLegal(end)
            && end.row.fields[NextRetryAt] == Time(q.now)
            && end.row.fields[RetryTargetStatus] ==
                 if p.row.status == RetryWait && q.stage.None? then p.row.fields[RetryTargetStatus]
                 else Target(RetryTarget(p, q).value)
  {
    if p.row.status != RetryWait {
      var args := RetryArgs(p.row, RetryTarget(p, q).value, q.now);
      assert forall f :: f in Required(RetryWait) ==> Supplied(args, f);
    }
  }

  /** The reason of the failure stays on record; a retry of nothing that failed says it was asked for by hand. */
  lemma RetryKeepsTheReason(p: State, q: RetryRequest)
    requires Retry(p, q).Some?
    ensures var end := Retry(p, q).value;
            && (forall f :: f !in {RetryTargetStatus, NextRetryAt, FailureCode, FailureSummary} ==>
                  (f in end.row.fields <==> f in p.row.fields)
                  && (f in p.row.fields ==> end.row.fields[f] == p.row.fields[f]))
            && (p.row.status == RetryWait ==>
                  forall f :: f in {FailureCode, FailureSummary} && f in p.row.fields ==>
                                f in end.row.fields && end.row.fields[f] == p.row.fields[f])
            && (p.row.status != RetryWait ==>
                  && KeepsOr(p.row, end.row, FailureCode, "MANUAL_RETRY")
                  && KeepsOr(p.row, end.row, FailureSummary, "manual retry requested"))
  {
  }

  /** Once the video is known, an automatic retry re-sends nothing, except a wait already aimed elsewhere. */
  lemma KnownVideoRetriesProcessingExactlyWhen(p: State, q: RetryRequest)
    requires RequiredPresent(TABLE, p.row) && TargetLegal(p)
    requires Truthy(p.videoId) && q.stage.None? && Retry(p, q).Some?
    ensures Retry(p, q).value.row.fields[RetryTargetStatus] == Target(Processing) <==>
            (p.row.status != RetryWait || p.row.fields[RetryTargetStatus] == Target(Processing))
  {
    AcceptedRetryWaits(p, q);
  }

  /** The retry is accepted, and the worker will resume at `target`. */
  predicate RetriesTo(p: State, q: RetryRequest, target: PublicationStatus) {
    match Retry(p, q)
    case None => false
    case Some(end) => RetryTargetStatus in end.row.fields && end.row.fields[RetryTargetStatus] == Target(target)
  }

  lemma ReconcileFinds(p: State, r: Remote, id: string)
    requires RequiredPresent(TABLE, p.row)
    requires p.row.status in {Failed, AuthRequired, QuotaBlocked} && p.lockedBy.None? && !Truthy(p.videoId)
    requires Confirmed(r, id)
    ensures var found := Reconcile(p, r).state;
            && found.videoId == Some(id) && found.row.status in {Failed, p.row.status}
            && RequiredPresent(TABLE, found.row)
  {
    var ids, remote := CompletedIds(r.journal), r.status(id);
    assert id in ids;
    WalkLands(p.row);
    if remote.processingStatus == "succeeded" { RepairAfterSuccess(p, id, remote, r.now); }
    else if remote.processingStatus in {"failed", "terminated"} { RepairAfterFailure(p, id, remote, r.now); }
  }

  /** Crash, reconcile, retry: from a failed or blocked status the recovered video is only ever polled again. */
  lemma CrashReconcileRetry(p: State, r: Remote, q: RetryRequest, id: string)
    requires RequiredPresent(TABLE, p.row)
    requires p.row.status in {Failed, AuthRequired, QuotaBlocked} && p.lockedBy.None? && !Truthy(p.videoId)
    requires Confirmed(r, id) && q.stage.None? && q.eligible && q.fingerprintMatches
    ensures var found := Reconcile(p, r).state;
            && found.videoId == Some(id)
            && found.row.status in {Failed, p.row.status}
            && RetriesTo(found, q, Processing)
  {
    ReconcileFinds(p, r, id);
    KnownVideoIsPolledAgain(Reconcile(p, r).state, q, id);
  }

  lemma KnownVideoIsPolledAgain(found: State, q: RetryRequest, id: string)
    requires RequiredPresent(TABLE, found.row) && found.row.status in {Failed, AuthRequired, QuotaBlocked}
    requires found.videoId == Some(id) && id != "" && q.stage.None? && q.eligible && q.fingerprintMatches
    ensures RetriesTo(found, q, Processing)
  {
    RetryAcceptedExactlyWhen(found, q);
    AcceptedRetryWaits(found, q);
  }

  /**
   The gap the condition above names: a crashed upload that stale recovery parked in RETRY_WAIT is still
   aimed at UPLOADING after reconciliation found its video.
   */
  lemma ParkedUploadStillTargetsUploading() returns (p: State, r: Remote, q: RetryRequest)
    ensures RequiredPresent(TABLE, p.row) && TargetLegal(p) && Confirmed(r, "v1")
    ensures var found := Reconcile(p, r).state;
            found.videoId == Some("v1") && q.stage.None? && RetriesTo(found, q, Uploading)
  {
    var fields := map[RetryTargetStatus := Target(Uploading), NextRetryAt := Time(0),
                      FailureCode := Text("WORKER_CRASHED"), FailureSummary := Text("crashed")];
    p := State(Row(RetryWait, fields), None, Some(9), 4, None, None, false, None, None, Some("uri"));
    var e := JournalEvent("upload_completed", Some("v1"));
    r := Remote(_ => Resolved("processing", None, None), [e], OffsetExpired, false, NothingFound, 1);
    q := RetryRequest(None, true, true, 2);
    assert r.journal[..0] == [] && CompletedIds(r.journal[..0]) == [];
    assert CompletedIds(r.journal) == ["v1"];
    WalkLands(p.row);
    RetryAcceptedExactlyWhen(Reconcile(p, r).state, q);
    AcceptedRetryWaits(Reconcile(p, r).state, q);
  }

  // ---- whole runs ------------------------------------------------------------------------------------

  /** Cancel is refused exactly in the three settled statuses; it never trips the table. */
  lemma CancelNeverTripsTheTable(p: State)
    ensures CancelPublication(p).None? <==> p.row.status in {Published, Cancelled, Failed}
    ensures CancelPublication(p).Some? ==>
            var end := CancelPublication(p).value;
            && end == p.(row := p.row.(status := end.row.status), cancelRequested := true)
            && end.row.status ==
                 (if p.row.status in {Uploading, UploadPaused} || p.lockedBy.Some? then p.row.status else Cancelled)
  {
    var none: map<PublicationField, Option<Value>> := map[];
    assert SetAll(p.row.fields, none) == p.row.fields;
  }

  /** What a step may do to a row. */
  ghost predicate RowStepIsSafe(p: State, end: State) {
    && RequiredPresent(TABLE, end.row) && TargetLegal(end)
    && (p.row.status in TERMINAL ==> end.row == p.row)
    && (end.row.status in {Uploading, UploadSessionCreated} ==> end.row.status == p.row.status)
    && (p.row.status == ReviewRequired ==> end.row.status in {ReviewRequired, Cancelled})
    && (p.row.status != Published && end.row.status == Published ==>
          p.row.status in {Uploading, UploadCompleted, Processing})
  }

  lemma RepairKeepsRow(p: State, id: string, remote: StatusAnswer, now: int)
    requires RequiredPresent(TABLE, p.row) && TargetLegal(p) && remote.Resolved? && p.row.status !in TERMINAL
    ensures RowStepIsSafe(p, Repaired(p, id, remote, now).0)
  {
    WalkLands(p.row);
    if remote.processingStatus == "succeeded" { RepairAfterSuccess(p, id, remote, now); }
    else if remote.processingStatus in {"failed", "terminated"} { RepairAfterFailure(p, id, remote, now); }
  }

  /** The row after recovery, when the journal names a video that the provider resolves. */
  predicate RowRepaired(p: State, r: Remote, row: PubRow) {
    var ids := CompletedIds(r.journal);
    && ids != [] && r.status(ids[|ids| - 1]).Resolved?
    && row == Repaired(p, ids[|ids| - 1], r.status(ids[|ids| - 1]), r.now).0.row
  }

  lemma LeasedRow(p: State, r: Remote)
    ensures var row := ReconcileLeased(p, r).state.row;
            row == p.row || RowRepaired(p, r, row)
  {
  }

  /** Nothing but a repair touches the row of a publication. */
  lemma OnlyRepairMovesTheRow(p: State, r: Remote)
    ensures var row := Reconcile(p, r).state.row;
            row == p.row || (p.row.status !in TERMINAL && RowRepaired(p, r, row))
  {
    LeasedRow(p, r);
  }

  lemma ReconcileKeepsRow(p: State, r: Remote)
    requires RequiredPresent(TABLE, p.row) && TargetLegal(p)
    ensures RowStepIsSafe(p, Reconcile(p, r).state)
  {
    var q, ids := Reconcile(p, r).state, CompletedIds(r.journal);
    OnlyRepairMovesTheRow(p, r);
    if q.row != p.row { RepairKeepsRow(p, ids[|ids| - 1], r.status(ids[|ids| - 1]), r.now); }
  }

  lemma RetryKeepsRow(p: State, q: RetryRequest)
    requires RequiredPresent(TABLE, p.row) && TargetLegal(p) && Retry(p, q).Some?
    ensures RowStepIsSafe(p, Retry(p, q).value)
  {
    AcceptedRetryWaits(p, q);
    RetryAcceptedExactlyWhen(p, q);
  }

  lemma StepKeepsRow(p: State, a: Action)
    requires RequiredPresent(TABLE, p.row) && TargetLegal(p)
    ensures RowStepIsSafe(p, Next(p, a))
    ensures p.row.status != Published && Next(p, a).row.status == Published ==> a.DoReconcile?
  {
    match a {
      case DoCancel =>
      case DoRetry(q) =>
        if Retry(p, q).Some? {
          RetryKeepsRow(p, q);
          AcceptedRetryWaits(p, q);
        }
      case DoReconcile(r) => ReconcileKeepsRow(p, r);
    }
  }

  /**
   Any run: required columns stay present, wait targets stay legal, terminal rows never move, nothing here
   puts a row into an upload stage, and a row awaiting review can only be cancelled.
   */
  lemma {:induction false} RecoveryRunsAreSafe(p: State, actions: seq<Action>)
    requires RequiredPresent(TABLE, p.row) && TargetLegal(p)
    ensures var end := After(p, actions);
            && RequiredPresent(TABLE, end.row) && TargetLegal(end)
            && (p.row.status in TERMINAL ==> end.row == p.row)
            && (end.row.status in {Uploading, UploadSessionCreated} ==> end.row.status == p.row.status)
            && (p.row.status == ReviewRequired ==> end.row.status in {ReviewRequired, Cancelled})
  {
    if actions != [] {
      var n := |actions| - 1;
      RecoveryRunsAreSafe(p, actions[..n]);
      StepKeepsRow(After(p, actions[..n]), actions[n]);
      if p.row.status == ReviewRequired && After(p, actions[..n]).row.status == Cancelled {
        assert After(p, actions).row.status == Cancelled;
      }
    }
  }
}
