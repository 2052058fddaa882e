/**
 What every answer of a reconciliation means, both ways round, and what else it did: asked, wrote, and left alone.
 core/publish_reconciliation.py:112-272.
 */
module PublicationReports {
  import opened Prelude
  import opened StateMachine
  import opened PublicationMachine
  import opened Publication
  import opened PublicationRecovery

  /** The publication is still open and its video is on record. */
  predicate KnowsVideo(p: State) {
    p.row.status !in {Published, Cancelled} && p.videoId.Some? && p.videoId.value != ""
  }

  /** It is still open, its video is not on record, and no worker holds it. */
  predicate TakesLease(p: State) {
    p.row.status !in {Published, Cancelled} && (p.videoId.None? || p.videoId.value == "") && p.lockedBy.None?
  }

  /** The last completed upload in the journal, the newest event last: its video and nobody else's is asked about. */
  ghost predicate Journalled(journal: seq<JournalEvent>, id: string) {
    exists k :: 0 <= k < |journal| && IsCompletion(journal[k]) && journal[k].videoId == Some(id)
                && forall j :: k < j < |journal| ==> !IsCompletion(journal[j])
  }

  ghost predicate NothingJournalled(journal: seq<JournalEvent>) {
    forall e :: e in journal ==> !IsCompletion(e)
  }

  lemma NoneIsJournalled(journal: seq<JournalEvent>)
    ensures CompletedIds(journal) == [] <==> NothingJournalled(journal)
  {
    var ids := CompletedIds(journal);
    if ids != [] { assert ids[0] in ids; }
    if e :| e in journal && IsCompletion(e) { assert e.videoId.value in ids; }
  }

  lemma {:induction false} LastIsJournalled(journal: seq<JournalEvent>, id: string)
    ensures var ids := CompletedIds(journal);
            Journalled(journal, id) <==> ids != [] && ids[|ids| - 1] == id
  {
    if journal != [] {
      LastIsJournalled(journal[..|journal| - 1], id);
      LaterEvent(journal, id);
    }
  }

  lemma JournalSays(journal: seq<JournalEvent>)
    ensures var ids := CompletedIds(journal);
            && (ids == [] <==> NothingJournalled(journal))
            && forall id :: Journalled(journal, id) <==> ids != [] && ids[|ids| - 1] == id
  {
    NoneIsJournalled(journal);
    forall id ensures var ids := CompletedIds(journal);
                      Journalled(journal, id) <==> ids != [] && ids[|ids| - 1] == id
    {
      LastIsJournalled(journal, id);
    }
  }

  lemma LaterEvent(journal: seq<JournalEvent>, id: string)
    requires journal != []
    ensures var n := |journal| - 1;
            Journalled(journal, id) <==>
              if IsCompletion(journal[n]) then journal[n].videoId == Some(id) else Journalled(journal[..n], id)
  {
    var n := |journal| - 1;
    if k :| 0 <= k < n && IsCompletion(journal[..n][k]) && journal[..n][k].videoId == Some(id)
            && forall j :: k < j < n ==> !IsCompletion(journal[..n][j]) {
      assert journal[k] == journal[..n][k];
      assert forall j :: k < j < n ==> journal[j] == journal[..n][j];
    }
    if k :| 0 <= k < n && IsCompletion(journal[k]) && journal[k].videoId == Some(id)
            && forall j :: k < j < |journal| ==> !IsCompletion(journal[j]) {
      assert journal[..n][k] == journal[k];
    }
  }

  /** The status of this video is asked for: the one on record, or the journalled one of a publication it may lease. */
  ghost predicate AsksStatus(p: State, r: Remote, id: string) {
    (KnowsVideo(p) && p.videoId == Some(id)) || (TakesLease(p) && Journalled(r.journal, id))
  }

  /** The provider is asked how much of an upload that was begun has arrived. */
  ghost predicate AsksOffset(p: State, r: Remote) {
    TakesLease(p) && NothingJournalled(r.journal) && p.storedSession.Some? && p.totalBytes.Some?
  }

  /** Nothing was ever uploaded. */
  ghost predicate NeverUploaded(p: State, r: Remote) {
    TakesLease(p) && NothingJournalled(r.journal) && (p.storedSession.None? || p.totalBytes.None?)
  }

  /** This block, and no other, is what the eligibility probe reports. */
  ghost predicate ProbeFinds(p: State, r: Remote, block: Block) {
    NeverUploaded(p, r) && r.hasProbe && r.probe == Blocked(block)
  }

  /** What asking for a video's status reports. */
  lemma StatusReports(p: State, r: Remote, id: string)
    requires AsksStatus(p, r, id)
    ensures Reconcile(p, r).calls == [GetProcessingStatus(id)]
    ensures var result := Reconcile(p, r).result;
            match r.status(id)
            case StatusAuthError => result == Reported(CredentialsUnavailable)
            case StatusTransient =>
              result == Reported(if KnowsVideo(p) then RemoteVideoMissing else ManualReviewRequired)
            case StatusOtherError => result == Raised
            case Resolved(_, _, _) =>
              if KnowsVideo(p) then result == Reported(AlreadyConsistent)
              else result == Repaired(p, id, r.status(id), r.now).1
  {
    JournalSays(r.journal);
  }

  lemma OthersReport(p: State, r: Remote)
    requires !KnowsVideo(p) && (TakesLease(p) ==> NothingJournalled(r.journal))
    ensures Reconcile(p, r).calls ==
            if AsksOffset(p, r) then [QueryUploadOffset]
            else if NeverUploaded(p, r) && r.hasProbe then [GetCreatorInfo] else []
    ensures var result := Reconcile(p, r).result;
            if p.row.status in {Published, Cancelled} then result == Reported(AlreadyConsistent)
            else if p.lockedBy.Some? then result == Reported(ManualReviewRequired)
            else if AsksOffset(p, r) then
              match r.offset
              case OffsetExpired => result == Reported(UploadSessionExpired)
              case OffsetAuthError => result == Reported(CredentialsUnavailable)
              case OffsetTransient => result == Reported(ManualReviewRequired)
              case OffsetOtherError => result == Raised
              case Offset(at) =>
                result == Reported(if at.None? || at.value >= p.totalBytes.value then AmbiguousRemoteState
                                   else UploadIncomplete)
            else if r.hasProbe && r.probe.Blocked? then result == Reported(r.probe.kind)
            else result == if r.hasProbe && r.probe.ProbeOtherError? then Raised else Reported(UploadIncomplete)
  {
    JournalSays(r.journal);
  }

  /** The video asked about, if any. */
  lemma AskedAbout(p: State, r: Remote) returns (id: Option<string>)
    ensures id.Some? ==> AsksStatus(p, r, id.value)
    ensures id.None? ==> !KnowsVideo(p) && (TakesLease(p) ==> NothingJournalled(r.journal))
    ensures forall other :: AsksStatus(p, r, other) <==> id == Some(other)
  {
    JournalSays(r.journal);
    var ids := CompletedIds(r.journal);
    id := if KnowsVideo(p) then p.videoId else if TakesLease(p) && ids != [] then Some(ids[|ids| - 1]) else None;
  }

  lemma RepairsReport(p: State, id: string, remote: StatusAnswer, now: int)
    requires remote.Resolved?
    ensures Repaired(p, id, remote, now).1 in {Raised, Reported(RecoveredRemoteVideo)}
  {
    RepairRaisesExactlyWhen(p, id, remote, now);
  }

  /** What was asked of the provider: about the video if any is known, else about the upload, else about the account. */
  lemma AsksExactly(p: State, r: Remote) returns (id: Option<string>)
    ensures forall other :: AsksStatus(p, r, other) <==> id == Some(other)
    ensures Reconcile(p, r).calls ==
            if id.Some? then [GetProcessingStatus(id.value)]
            else if AsksOffset(p, r) then [QueryUploadOffset]
            else if NeverUploaded(p, r) && r.hasProbe then [GetCreatorInfo]
            else []
  {
    id := AskedAbout(p, r);
    if id.Some? { StatusReports(p, r, id.value); } else { OthersReport(p, r); }
  }

  /** What the provider says about how far an upload begun before has come decides what is reported. */
  lemma OffsetReports(p: State, r: Remote)
    ensures var result := Reconcile(p, r).result;
            && (result == Reported(UploadSessionExpired) <==> AsksOffset(p, r) && r.offset == OffsetExpired)
            // The provider has it all, and yet no completion is on record: a person decides, nothing is sent again.
            && (result == Reported(AmbiguousRemoteState) <==>
                  && AsksOffset(p, r) && r.offset.Offset?
                  && (r.offset.at.None? || r.offset.at.value >= p.totalBytes.value))
            && (result == Reported(UploadIncomplete) <==>
                  || (AsksOffset(p, r) && r.offset.Offset? && r.offset.at.Some?
                      && r.offset.at.value < p.totalBytes.value)
                  || (NeverUploaded(p, r) && (r.hasProbe ==> r.probe == NothingFound)))
  {
    var id := AskedAbout(p, r);
    if id.Some? {
      StatusReports(p, r, id.value);
      if r.status(id.value).Resolved? { RepairsReport(p, id.value, r.status(id.value), r.now); }
    } else {
      OthersReport(p, r);
    }
  }

  ghost predicate StatusIs(p: State, r: Remote, answer: StatusAnswer) {
    exists id :: AsksStatus(p, r, id) && r.status(id) == answer
  }

  /** Every way to a report that asks whoever holds the credentials to act. */
  lemma CredentialsReports(p: State, r: Remote)
    ensures Reconcile(p, r).result == Reported(CredentialsUnavailable) <==>
              || StatusIs(p, r, StatusAuthError)
              || (AsksOffset(p, r) && r.offset == OffsetAuthError)
              || ProbeFinds(p, r, CredentialsUnavailable)
  {
    var id := AskedAbout(p, r);
    if id.Some? {
      StatusReports(p, r, id.value);
      if r.status(id.value).Resolved? { RepairsReport(p, id.value, r.status(id.value), r.now); }
    } else {
      OthersReport(p, r);
    }
  }

  /** Every way to a report that asks a person to look: a worker is at it, or the provider could not be asked. */
  lemma ReviewReports(p: State, r: Remote)
    ensures Reconcile(p, r).result == Reported(ManualReviewRequired) <==>
              || (p.row.status !in {Published, Cancelled} && !KnowsVideo(p) && p.lockedBy.Some?)
              || (!KnowsVideo(p) && StatusIs(p, r, StatusTransient))
              || (AsksOffset(p, r) && r.offset == OffsetTransient)
              || ProbeFinds(p, r, ManualReviewRequired)
  {
    var id := AskedAbout(p, r);
    if id.Some? {
      StatusReports(p, r, id.value);
      if r.status(id.value).Resolved? { RepairsReport(p, id.value, r.status(id.value), r.now); }
    } else {
      OthersReport(p, r);
    }
  }

  /** Platform blocks are only ever found on a publication that never uploaded anything. */
  lemma BlockReports(p: State, r: Remote, block: Block)
    requires block in {AppReviewRequired, PublishingLimitReached}
    ensures Reconcile(p, r).result == Reported(block) <==> ProbeFinds(p, r, block)
  {
    var id := AskedAbout(p, r);
    if id.Some? {
      StatusReports(p, r, id.value);
      if r.status(id.value).Resolved? { RepairsReport(p, id.value, r.status(id.value), r.now); }
    } else {
      OthersReport(p, r);
    }
  }

  /** What a reconciliation says about the video itself. */
  lemma VideoReports(p: State, r: Remote)
    ensures var result := Reconcile(p, r).result;
            && (result == Reported(AlreadyConsistent) <==>
                  p.row.status in {Published, Cancelled} || (KnowsVideo(p) && r.status(p.videoId.value).Resolved?))
            && (result == Reported(RemoteVideoMissing) <==>
                  KnowsVideo(p) && r.status(p.videoId.value) == StatusTransient)
            && (result == Reported(RecoveredRemoteVideo) <==>
                  TakesLease(p) && exists id :: Journalled(r.journal, id) && r.status(id).Resolved?
                                                && !RepairTrips(p, r.status(id).processingStatus))
  {
    var id := AskedAbout(p, r);
    if id.Some? {
      StatusReports(p, r, id.value);
      if r.status(id.value).Resolved? { RepairRaisesExactlyWhen(p, id.value, r.status(id.value), r.now); }
    } else {
      OthersReport(p, r);
    }
  }

  /** The table has no way from here to where the video ended. */
  predicate RepairTrips(p: State, ending: string) {
    || (ending == "succeeded" && p.row.status !in {Uploading, UploadCompleted, Processing})
    || (ending in {"failed", "terminated"} && p.row.status in {Created, Published, ReviewRequired, Failed, Cancelled})
  }

  // ---- what it writes --------------------------------------------------------------------------------------

  lemma AskingWritesNothing(p: State, r: Remote, id: string)
    requires AsksStatus(p, r, id) && (TakesLease(p) ==> !r.status(id).Resolved?)
    ensures Reconcile(p, r).state == if TakesLease(p) then p.(lockedBy := None, leaseToken := None) else p
  {
    if TakesLease(p) {
      JournalSays(r.journal);
      assert ReconcileLeased(p, r).state == p;
    }
  }

  lemma OthersWriteLittle(p: State, r: Remote)
    requires !KnowsVideo(p) && (TakesLease(p) ==> NothingJournalled(r.journal))
    ensures Reconcile(p, r).state ==
            if !TakesLease(p) then p
            else p.(lockedBy := None, leaseToken := None,
                    storedSession := if AsksOffset(p, r) && r.offset == OffsetExpired then None else p.storedSession)
  {
    JournalSays(r.journal);
  }

  /**
   The rest of the publication is left alone, but that the lease is handed back and an expired session forgotten. Only a
   journalled video that the provider resolves writes more: see RepairWrites.
   */
  lemma NothingElseIsWritten(p: State, r: Remote)
    requires !(TakesLease(p) && exists id :: Journalled(r.journal, id) && r.status(id).Resolved?)
    ensures Reconcile(p, r).state ==
            if !TakesLease(p) then p
            else p.(lockedBy := None, leaseToken := None,
                    storedSession := if AsksOffset(p, r) && r.offset == OffsetExpired then None else p.storedSession)
  {
    var id := AskedAbout(p, r);
    if id.Some? { AskingWritesNothing(p, r, id.value); } else { OthersWriteLittle(p, r); }
  }

  /** At most 500 characters of the provider's reason, or of the status it ended in. */
  function Reason(remote: StatusAnswer): string
    requires remote.Resolved?
  {
    var why := if Truthy(remote.failureReason) then remote.failureReason.value else remote.processingStatus;
    if |why| <= 500 then why else why[..500]
  }

  /** What every repair writes before it looks at how the video ended. */
  ghost predicate Found(p: State, q: State, id: string) {
    q == p.(row := q.row, videoId := Some(id), url := q.url, processingCompletedAt := q.processingCompletedAt,
            bytesUploaded := if p.totalBytes.Some? then p.totalBytes.value else p.bytesUploaded)
  }

  function Walked(row: PubRow): PubRow {
    Row(if row.status in {Uploading, UploadCompleted} then Processing else row.status, row.fields)
  }

  lemma SuccessWrites(p: State, id: string, remote: StatusAnswer, now: int)
    requires remote.Resolved? && remote.processingStatus == "succeeded" && p.row.status !in {Published, Cancelled}
    ensures var q := Repaired(p, id, remote, now).0;
            && Found(p, q, id) && q.processingCompletedAt == Some(now)
            && q.url == (if Truthy(remote.url) then remote.url else p.url)
            && q.row == if RepairTrips(p, "succeeded") then Walked(p.row)
                        else Row(Published, p.row.fields[PublishedAt := Time(now)])
  {
    WalkLands(p.row);
  }

  lemma FailureWrites(p: State, id: string, remote: StatusAnswer, now: int)
    requires remote.Resolved? && remote.processingStatus in {"failed", "terminated"}
    requires p.row.status !in {Published, Cancelled}
    ensures var q := Repaired(p, id, remote, now).0;
            && Found(p, q, id) && q.processingCompletedAt == p.processingCompletedAt && q.url == p.url
            && q.row == if RepairTrips(p, remote.processingStatus) then Walked(p.row)
                        else Row(Failed, p.row.fields[FailureCode := Text("PROCESSING_FAILED")][
                               FailureSummary := Text(Reason(remote))])
  {
    WalkLands(p.row);
  }

  lemma RepairedState(p: State, id: string, remote: StatusAnswer, now: int)
    requires remote.Resolved? && p.row.status !in {Published, Cancelled}
    ensures var q, ending := Repaired(p, id, remote, now).0, remote.processingStatus;
            && Found(p, q, id)
            && q.url == (if ending == "succeeded" && Truthy(remote.url) then remote.url else p.url)
            && q.processingCompletedAt == (if ending == "succeeded" then Some(now) else p.processingCompletedAt)
            && q.row ==
                 if RepairTrips(p, ending) || ending !in {"succeeded", "failed", "terminated"} then Walked(p.row)
                 else if ending == "succeeded" then Row(Published, p.row.fields[PublishedAt := Time(now)])
                 else Row(Failed, p.row.fields[FailureCode := Text("PROCESSING_FAILED")][
                        FailureSummary := Text(Reason(remote))])
  {
    if remote.processingStatus == "succeeded" { SuccessWrites(p, id, remote, now); }
    else if remote.processingStatus in {"failed", "terminated"} { FailureWrites(p, id, remote, now); }
    else { WalkLands(p.row); }
  }

  /** Everything a repair writes, whether it raises in the end or not; the lease is handed back either way. */
  lemma RepairWrites(p: State, r: Remote, id: string)
    requires TakesLease(p) && Journalled(r.journal, id) && r.status(id).Resolved?
    ensures var q, remote := Reconcile(p, r).state, r.status(id);
            var ending := remote.processingStatus;
            && Found(p.(lockedBy := None, leaseToken := None), q, id)
            && q.url == (if ending == "succeeded" && Truthy(remote.url) then remote.url else p.url)
            && q.processingCompletedAt == (if ending == "succeeded" then Some(r.now) else p.processingCompletedAt)
            && q.row ==
                 if RepairTrips(p, ending) || ending !in {"succeeded", "failed", "terminated"} then Walked(p.row)
                 else if ending == "succeeded" then Row(Published, p.row.fields[PublishedAt := Time(r.now)])
                 else Row(Failed, p.row.fields[FailureCode := Text("PROCESSING_FAILED")][
                        FailureSummary := Text(Reason(remote))])
  {
    JournalSays(r.journal);
    RepairedState(p, id, r.status(id), r.now);
  }
}
