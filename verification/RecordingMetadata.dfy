/** The metadata document of one recording (kamrui-media-edge/camera-api/server.js). */
module RecordingMetadata {
  import opened Wrappers

  datatype Deletion = Deletion(
    status: string, requestId: string, localDeleted: bool, remoteDeleted: bool, remoteVerified: bool, errors: bool)

  /** The finalized file; `checksum` is its local SHA-256. Absent text is "". */
  datatype Media = Media(filePath: string, checksum: string, finalizedAt: string)

  datatype Sync = Sync(
    synced: bool, verified: bool, state: string, destination: string, syncedAt: string,
    remoteChecksum: Option<string>, error: string)

  datatype Upload = Upload(
    uploaded: bool, state: string, videoUuid: string, privacy: int, published: bool, error: string)

  datatype Archive = Archive(archived: bool, archivedBy: string, restoredAt: string)

  /** The document, its flat fields grouped by the operation that writes them. */
  datatype Metadata = Metadata(media: Media, sync: Sync, upload: Upload, archive: Archive, deletion: Option<Deletion>)

  /** metadataOperationStates. */
  predicate IsSyncing(m: Metadata) {
    m.sync.state == "syncing"
  }

  predicate IsUploading(m: Metadata) {
    m.upload.state == "uploading"
  }

  /** The revision a destructive request must name. */
  function Revision(m: Metadata, sessionId: string): string {
    if m.media.checksum != "" then m.media.checksum
    else if m.media.finalizedAt != "" then m.media.finalizedAt
    else sessionId
  }

  datatype Precondition = Accepted | Missing | Stale

  /** revisionPrecondition: the revision itself or the revision in double quotes. */
  function RevisionPrecondition(ifMatch: string, revision: string): (p: Precondition)
    ensures p == Accepted <==> ifMatch != "" && (ifMatch == revision || ifMatch == "\"" + revision + "\"")
  {
    if ifMatch == "" then Missing
    else if ifMatch != revision && ifMatch != "\"" + revision + "\"" then Stale
    else Accepted
  }
}
