/**
 The operations that read, change and rewrite one recording's metadata document under
 its lease (kamrui-media-edge/camera-api/server.js). Each reads the document once and
 then only writes its own copy, so exclusion alone makes them serialisable.
 */
module LeasedOperations {
  import opened Wrappers
  import opened RecordingMetadata
  import LeasedRuns
  import PermanentDelete

  // --- The operations ---

  /** One sync host: whether rsync succeeds there, and the checksum read back. */
  datatype Transfer = Transfer(destination: string, ok: bool, remoteChecksum: Option<string>)

  datatype UploadOutcome = Uploaded(videoUuid: string) | UploadFailed(error: string)

  /** An operation with every answer its environment will give it. */
  datatype Operation =
    | SyncOp(fileExists: bool, transfers: seq<Transfer>, at: string)
    | UploadOp(fileExists: bool, configured: bool, outcome: UploadOutcome)
    | PublishOp(privacy: int, configured: bool, accepted: bool)
    | ArchiveOp(active: bool, operator: string)
    | RestoreOp(at: string)
    | RemoveVideoOp(confirmed: bool, configured: bool, removed: bool)
    | DeleteOp(localFile: bool, remoteFile: bool, tombstone: PermanentDelete.Tombstone,
               request: PermanentDelete.Request, outcomes: PermanentDelete.Outcomes)

  function FirstTransfer(transfers: seq<Transfer>): (t: Option<Transfer>)
    ensures t.Some? ==> t.value in transfers && t.value.ok
    ensures t.None? ==> forall x :: x in transfers ==> !x.ok
  {
    if transfers == [] then None
    else if transfers[0].ok then Some(transfers[0])
    else FirstTransfer(transfers[1..])
  }

  /** syncToGmktec: the documents it writes, in order. */
  function SyncWrites(m: Metadata, fileExists: bool, transfers: seq<Transfer>, at: string): seq<Metadata> {
    if (m.sync.synced && m.sync.verified) || m.media.filePath == "" || !fileExists || m.media.checksum == "" || transfers == [] then []
    else
      var started := m.(sync := m.sync.(state := "syncing"));
      match FirstTransfer(transfers)
      case None =>
        [started, m.(sync := m.sync.(synced := false, verified := false, remoteChecksum := None, error := "rsync failed", state := "failed"))]
      case Some(t) =>
        var verified := t.remoteChecksum.Some? && t.remoteChecksum.value == m.media.checksum;
        [started, m.(sync := Sync(verified, verified, if verified then "complete" else "failed", t.destination,
                                  if verified then at else m.sync.syncedAt, t.remoteChecksum,
                                  if verified then "" else "checksum"))]
  }

  /** uploadToPeerTube. */
  function UploadWrites(m: Metadata, fileExists: bool, configured: bool, outcome: UploadOutcome): seq<Metadata> {
    if (m.upload.uploaded && m.upload.videoUuid != "") || m.media.filePath == "" || !fileExists || !configured then []
    else
      [m.(upload := m.upload.(state := "uploading")),
       m.(upload := match outcome
                    case Uploaded(uuid) => m.upload.(uploaded := true, videoUuid := uuid, privacy := 3, state := "complete")
                    case UploadFailed(error) => m.upload.(error := error, state := "failed"))]
  }

  /** publishRecording. */
  function PublishWrites(m: Metadata, privacy: int, configured: bool, accepted: bool): seq<Metadata> {
    if m.upload.videoUuid == "" || !configured || !accepted then []
    else [m.(upload := m.upload.(privacy := privacy, published := privacy != 3))]
  }

  function ArchiveWrites(m: Metadata, active: bool, operator: string): seq<Metadata> {
    if active then [] else [m.(archive := m.archive.(archived := true, archivedBy := operator))]
  }

  function RestoreWrites(m: Metadata, at: string): seq<Metadata> {
    if !m.archive.archived then [] else [m.(archive := Archive(false, "", at))]
  }

  /** DELETE /api/recordings/:id/peertube: what it writes once the video is gone. */
  function RemoveVideoWrites(m: Metadata, confirmed: bool, configured: bool, removed: bool): seq<Metadata> {
    if m.upload.videoUuid == "" || !confirmed || !configured || !removed then []
    else [m.(upload := m.upload.(videoUuid := "", privacy := 0))]
  }

  function Present(writes: seq<Metadata>): (r: seq<Option<Metadata>>)
    ensures |r| == |writes| && forall i :: 0 <= i < |r| ==> r[i] == Some(writes[i])
  {
    seq(|writes|, i requires 0 <= i < |writes| => Some(writes[i]))
  }

  function Rows(states: seq<PermanentDelete.Disk>): (r: seq<Option<Metadata>>)
    ensures |r| == |states| && forall i :: 0 <= i < |r| ==> r[i] == states[i].row
  {
    seq(|states|, i requires 0 <= i < |states| => states[i].row)
  }

  /** The document contents an operation writes after reading `document`; None is a
      removed document, and nothing is written when there is none to read. */
  function Writes(op: Operation, document: Option<Metadata>): seq<Option<Metadata>> {
    if document.None? then []
    else
      var m := document.value;
      match op
      case SyncOp(fileExists, transfers, at) => Present(SyncWrites(m, fileExists, transfers, at))
      case UploadOp(fileExists, configured, outcome) => Present(UploadWrites(m, fileExists, configured, outcome))
      case PublishOp(privacy, configured, accepted) => Present(PublishWrites(m, privacy, configured, accepted))
      case ArchiveOp(active, operator) => Present(ArchiveWrites(m, active, operator))
      case RestoreOp(at) => Present(RestoreWrites(m, at))
      case RemoveVideoOp(confirmed, configured, removed) => Present(RemoveVideoWrites(m, confirmed, configured, removed))
      case DeleteOp(localFile, remoteFile, tombstone, request, outcomes) =>
        Rows(PermanentDelete.Attempt(PermanentDelete.Disk(document, localFile, remoteFile, tombstone), request, outcomes))
  }

  // --- The theorem for these operations ---

  /** For every interleaving of uploads, syncs, publications, archivings, restorings, video
      removals and deletions on one recording, each finishing within its lease, the document ends as
      if they had run one after another in acquisition order. */
  lemma MetadataOperationsAreSerialisable(now: int, document: Option<Metadata>, events: seq<LeasedRuns.Event<Operation>>)
    requires LeasedRuns.Exec(Writes, LeasedRuns.Start(now, document), events).Some?
    requires var s := LeasedRuns.Exec(Writes, LeasedRuns.Start(now, document), events).value;
      forall o :: o in s.phases ==> s.phases[o].Finished? || s.phases[o].Refused?
    ensures var s := LeasedRuns.Exec(Writes, LeasedRuns.Start(now, document), events).value;
      s.document == LeasedRuns.Serial(Writes, document, LeasedRuns.Operations(s.order))
  {
    LeasedRuns.Serialisable(Writes, now, document, events);
  }

  // --- Why the lease is needed, and what the operations mean ---

  /** Without it: a publish reads the document, an archive runs to its end while the publish
      waits for its answer, and the publish's write loses it. The document is neither serial
      outcome, and the archive that ended is not in it. */
  lemma {:induction false} UnleasedArchiveIsLost(m: Metadata, operator: string, now: int)
    requires !m.archive.archived && m.upload.videoUuid != ""
    ensures var publish, archive := PublishOp(1, true, true), ArchiveOp(false, operator);
      var end := LeasedRuns.Exec(Writes, LeasedRuns.BothAdmitted(now, Some(m), publish, archive), LeasedRuns.Overlap());
      && end.Some? && end.value.document.Some? && !end.value.document.value.archive.archived
      && "b" in end.value.phases && end.value.phases["b"].Finished?
      && end.value.document != LeasedRuns.Serial(Writes, Some(m), [publish, archive])
      && end.value.document != LeasedRuns.Serial(Writes, Some(m), [archive, publish])
  {
    var publish, archive := PublishOp(1, true, true), ArchiveOp(false, operator);
    LeasedRuns.OverlapLosesTheSecond(Writes, now, Some(m), publish, archive);
    BothOrdersArchive(m, operator);
  }

  lemma {:induction false} BothOrdersArchive(m: Metadata, operator: string)
    requires m.upload.videoUuid != ""
    ensures var publish, archive := PublishOp(1, true, true), ArchiveOp(false, operator);
      forall order :: order == [publish, archive] || order == [archive, publish] ==>
        var end := LeasedRuns.Serial(Writes, Some(m), order); end.Some? && end.value.archive.archived
  {
    var publish, archive := PublishOp(1, true, true), ArchiveOp(false, operator);
    assert [publish, archive][..1] == [publish] && [archive, publish][..1] == [archive];
    assert [publish][..0] == [] && [archive][..0] == [];
    assert LeasedRuns.Serial(Writes, Some(m), [publish]) == LeasedRuns.Complete(Writes, publish, Some(m));
    assert LeasedRuns.Serial(Writes, Some(m), [archive]) == LeasedRuns.Complete(Writes, archive, Some(m));
  }

  /** An operation changes only its own group of fields, at every point of its run. */
  lemma OperationsKeepToTheirFields(op: Operation, m: Metadata, k: nat)
    requires !op.DeleteOp?
    ensures LeasedRuns.Effect(Writes, op, Some(m), k).Some?
    ensures var n := LeasedRuns.Effect(Writes, op, Some(m), k).value;
      && n.media == m.media && n.deletion == m.deletion
      && (!op.SyncOp? ==> n.sync == m.sync)
      && (!op.UploadOp? && !op.PublishOp? && !op.RemoveVideoOp? ==> n.upload == m.upload)
      && (!op.ArchiveOp? && !op.RestoreOp? ==> n.archive == m.archive)
  {
  }

  /** A sync that transferred marks the recording synchronized exactly when the checksum
      read back is the local one; one that failed everywhere marks it unsynchronized;
      neither leaves it syncing. */
  lemma SyncedOnlyWhenVerified(m: Metadata, transfers: seq<Transfer>, at: string)
    requires !(m.sync.synced && m.sync.verified)
    requires m.media.filePath != "" && m.media.checksum != "" && transfers != []
    ensures var n := LeasedRuns.Complete(Writes, SyncOp(true, transfers, at), Some(m)).value;
      && n.sync.synced == n.sync.verified && !IsSyncing(n)
      && (n.sync.synced <==> exists i :: FirstSuccess(transfers, i) && transfers[i].remoteChecksum == Some(m.media.checksum))
  {
    FirstTransferIsFirst(transfers);
  }

  ghost predicate FirstSuccess(transfers: seq<Transfer>, i: int) {
    0 <= i < |transfers| && transfers[i].ok && forall j :: 0 <= j < i ==> !transfers[j].ok
  }

  lemma {:induction false} FirstTransferIsFirst(transfers: seq<Transfer>)
    ensures FirstTransfer(transfers).Some? ==> exists i :: FirstSuccess(transfers, i)
    ensures forall i :: FirstSuccess(transfers, i) ==> FirstTransfer(transfers) == Some(transfers[i])
  {
    if transfers == [] {
    } else if transfers[0].ok {
      assert FirstSuccess(transfers, 0);
    } else {
      var tail := transfers[1..];
      FirstTransferIsFirst(tail);
      forall i | FirstSuccess(transfers, i) ensures FirstTransfer(transfers) == Some(transfers[i]) {
        assert FirstSuccess(tail, i - 1);
      }
      if FirstTransfer(tail).Some? {
        var i :| FirstSuccess(tail, i);
        assert FirstSuccess(transfers, i + 1);
      }
    }
  }
}
