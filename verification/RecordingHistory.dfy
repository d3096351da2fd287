/**
 What the operations of LeasedOperations make of one recording's document over whole
 runs (kamrui-media-edge/camera-api/server.js): crashes between two writes included.
 */
module RecordingHistory {
  import opened Wrappers
  import opened RecordingMetadata
  import opened LeasedOperations
  import LeasedRuns
  import PermanentDelete

  type Document = Option<Metadata>

  // --- What a completed operation leaves ---

  function After(op: Operation, m: Metadata): Document {
    LeasedRuns.Complete(Writes, op, Some(m))
  }

  /** Whether an upload is attempted: not uploaded yet, and there is a file and a server. */
  ghost predicate Uploads(op: Operation, m: Metadata) {
    && op.UploadOp? && !(m.upload.uploaded && m.upload.videoUuid != "")
    && m.media.filePath != "" && op.fileExists && op.configured
  }

  /** An upload that succeeds leaves a private video under its new id, one that fails the
      error; neither touches anything else, and an upload that is not attempted nothing. */
  lemma UploadLeaves(op: Operation, m: Metadata)
    requires op.UploadOp?
    ensures After(op, m).Some?
    ensures var n := After(op, m).value;
      && (Uploads(op, m) && op.outcome.Uploaded? ==>
            n == m.(upload := Upload(true, "complete", op.outcome.videoUuid, 3, m.upload.published, m.upload.error)))
      && (Uploads(op, m) && op.outcome.UploadFailed? ==>
            n == m.(upload := m.upload.(state := "failed", error := op.outcome.error)))
      && (!Uploads(op, m) ==> n == m)
    ensures Uploads(op, m) ==> LeasedRuns.Effect(Writes, op, Some(m), 1) == Some(m.(upload := m.upload.(state := "uploading")))
  {
  }

  /** A publish that the server accepts sets the privacy asked for, published unless private. */
  lemma PublishLeaves(op: Operation, m: Metadata)
    requires op.PublishOp?
    ensures After(op, m) == Some(
      if m.upload.videoUuid != "" && op.configured && op.accepted
      then m.(upload := m.upload.(privacy := op.privacy, published := op.privacy != 3))
      else m)
  {
  }

  /** Archiving names the operator and restoring takes that back, both only once. */
  lemma ArchiveLeaves(m: Metadata, active: bool, operator: string, at: string)
    ensures After(ArchiveOp(active, operator), m) ==
      Some(if active then m else m.(archive := Archive(true, operator, m.archive.restoredAt)))
    ensures After(RestoreOp(at), m) == Some(if m.archive.archived then m.(archive := Archive(false, "", at)) else m)
    ensures !active && !m.archive.archived ==>
      After(RestoreOp(at), After(ArchiveOp(false, operator), m).value) == Some(m.(archive := Archive(false, "", at)))
  {
  }

  /** Removing the video forgets its id and privacy, and leaves the rest as it was. */
  lemma RemoveVideoLeaves(op: Operation, m: Metadata)
    requires op.RemoveVideoOp?
    ensures After(op, m) == Some(
      if m.upload.videoUuid != "" && op.confirmed && op.configured && op.removed
      then m.(upload := m.upload.(videoUuid := "", privacy := 0))
      else m)
  {
  }

  /** A verified sync records where the copy is and when it was verified; one that is not
      keeps the time of the last that was. */
  lemma SyncLeaves(m: Metadata, transfers: seq<Transfer>, at: string, i: int)
    requires !(m.sync.synced && m.sync.verified) && m.media.filePath != "" && m.media.checksum != "" && FirstSuccess(transfers, i)
    ensures var n := After(SyncOp(true, transfers, at), m);
      && n.Some? && n.value.sync.destination == transfers[i].destination && n.value.sync.remoteChecksum == transfers[i].remoteChecksum
      && (transfers[i].remoteChecksum == Some(m.media.checksum) ==>
            n.value.sync.synced && n.value.sync.verified && n.value.sync.state == "complete" && n.value.sync.syncedAt == at && n.value.sync.error == "")
      && (transfers[i].remoteChecksum != Some(m.media.checksum) ==>
            !n.value.sync.synced && !n.value.sync.verified && n.value.sync.state == "failed" && n.value.sync.syncedAt == m.sync.syncedAt)
    ensures LeasedRuns.Effect(Writes, SyncOp(true, transfers, at), Some(m), 1) == Some(m.(sync := m.sync.(state := "syncing")))
  {
    FirstTransferIsFirst(transfers);
  }

  /** Nothing is written for a recording that is synchronized already, that has no file or no
      checksum to compare, or that has nowhere to go. */
  lemma SyncSkipsIff(m: Metadata, fileExists: bool, transfers: seq<Transfer>, at: string)
    ensures Writes(SyncOp(fileExists, transfers, at), Some(m)) == [] <==>
      (m.sync.synced && m.sync.verified) || m.media.filePath == "" || !fileExists || m.media.checksum == "" || transfers == []
  {
  }

  /** A sync that fails on every host keeps no claim of an earlier one. */
  lemma FailedSyncLeaves(m: Metadata, transfers: seq<Transfer>, at: string)
    requires !(m.sync.synced && m.sync.verified) && m.media.filePath != "" && m.media.checksum != "" && transfers != []
    requires forall t :: t in transfers ==> !t.ok
    ensures var n := After(SyncOp(true, transfers, at), m);
      && n.Some? && !n.value.sync.synced && !n.value.sync.verified && n.value.sync.state == "failed" && n.value.sync.remoteChecksum.None?
      && n.value.sync.syncedAt == m.sync.syncedAt && n.value.sync.destination == m.sync.destination
      && n.value.sync.error != ""
  {
  }

  // --- What holds at every moment of every run ---

  /** The fields of a document tell one story. */
  ghost predicate Consistent(m: Metadata) {
    && m.sync.synced == m.sync.verified
    && (m.sync.synced ==> m.sync.remoteChecksum == Some(m.media.checksum) && m.media.checksum != "" && m.sync.state == "complete")
    && (m.upload.videoUuid != "" ==> m.upload.uploaded)
    && (m.upload.state == "complete" ==> m.upload.uploaded)
    && (!m.archive.archived ==> m.archive.archivedBy == "")
  }

  /** The document a finalization writes. */
  ghost predicate Fresh(m: Metadata) {
    && !m.sync.synced && !m.sync.verified && m.sync.state == "idle"
    && !m.upload.uploaded && m.upload.videoUuid == "" && !m.upload.published && m.upload.state == "idle"
    && !m.archive.archived && m.archive.archivedBy == "" && m.deletion.None?
  }

  lemma DeletionKeepsRecording(op: Operation, m: Metadata, k: nat)
    requires op.DeleteOp? && LeasedRuns.Effect(Writes, op, Some(m), k).Some?
    ensures PermanentDelete.SameRecording(m, LeasedRuns.Effect(Writes, op, Some(m), k).value)
  {
    hide PermanentDelete.Attempt, PermanentDelete.Chain;
    var d := PermanentDelete.Disk(Some(m), op.localFile, op.remoteFile, op.tombstone);
    var states := PermanentDelete.Attempt(d, op.request, op.outcomes);
    if 0 < k <= |states| {
      PermanentDelete.AttemptChains(d, op.request, op.outcomes);
      PermanentDelete.ChainOrders(d, states, k - 1);
    }
  }

  lemma OperationKeepsConsistent(op: Operation, m: Metadata, k: nat)
    requires Consistent(m) && LeasedRuns.Effect(Writes, op, Some(m), k).Some?
    ensures Consistent(LeasedRuns.Effect(Writes, op, Some(m), k).value)
  {
    if op.DeleteOp? {
      DeletionKeepsRecording(op, m, k);
      hide LeasedRuns.Effect;
      var n := LeasedRuns.Effect(Writes, op, Some(m), k).value;
      assert m.(deletion := None) == n.(deletion := None);
    } else if op.SyncOp? {
      SyncKeepsConsistent(op, m, k);
    }
  }

  lemma SyncKeepsConsistent(op: Operation, m: Metadata, k: nat)
    requires op.SyncOp? && Consistent(m)
    ensures var n := LeasedRuns.Effect(Writes, op, Some(m), k); n.Some? && Consistent(n.value)
  {
    hide FirstTransfer;
  }

  lemma {:induction false} ReplayKeepsConsistent(document: Document, order: seq<LeasedRuns.Entry<Operation>>)
    requires document.Some? ==> Consistent(document.value)
    ensures LeasedRuns.Replay(Writes, document, order).Some? ==> Consistent(LeasedRuns.Replay(Writes, document, order).value)
  {
    hide Consistent, Writes;
    if order != [] {
      var n := |order| - 1;
      ReplayKeepsConsistent(document, order[..n]);
      var before := LeasedRuns.Replay(Writes, document, order[..n]);
      if before.Some? {
        if LeasedRuns.Effect(Writes, order[n].op, before, order[n].written).Some? {
          OperationKeepsConsistent(order[n].op, before.value, order[n].written);
        }
      } else {
        NothingWithoutDocument(order[n].op, order[n].written);
      }
    }
  }

  lemma NothingWithoutDocument(op: Operation, k: nat)
    ensures LeasedRuns.Effect(Writes, op, None, k) == None
  {
  }

  /** At every moment of every interleaving, crashes included, the document of a recording
      is consistent once it was. */
  lemma AlwaysConsistent(now: int, document: Document, events: seq<LeasedRuns.Event<Operation>>)
    requires document.Some? ==> Consistent(document.value)
    requires LeasedRuns.Exec(Writes, LeasedRuns.Start(now, document), events).Some?
    ensures var s := LeasedRuns.Exec(Writes, LeasedRuns.Start(now, document), events).value;
      s.document.Some? ==> Consistent(s.document.value)
  {
    hide Consistent, Writes;
    LeasedRuns.AlwaysInAcquisitionOrder(Writes, now, document, events);
    ReplayKeepsConsistent(document, LeasedRuns.Exec(Writes, LeasedRuns.Start(now, document), events).value.order);
  }

  // --- Who made it public ---

  /** What the document says of its video: published only with an id and a privacy that is not
      private, and private otherwise. */
  ghost predicate Coherent(u: Upload) {
    && (u.published ==> u.videoUuid != "" && u.privacy != 3)
    && (u.videoUuid != "" && !u.published ==> u.privacy == 3)
  }

  /** The operation, with `k` of its writes done, removes the video. */
  ghost predicate RemovesVideo(op: Operation, m: Metadata, k: nat) {
    op.RemoveVideoOp? && k == 1 && op.confirmed && op.configured && op.removed && m.upload.videoUuid != ""
  }

  /** The operation sets the publication. */
  ghost predicate SetsPrivacy(op: Operation, m: Metadata, k: nat) {
    op.PublishOp? && k == 1 && op.configured && op.accepted && m.upload.videoUuid != ""
  }

  /** Removing a video keeps the document coherent exactly when the video was not published:
      the handler leaves the mark. */
  lemma RemovalKeepsCoherentIff(op: Operation, m: Metadata)
    requires RemovesVideo(op, m, 1) && Coherent(m.upload)
    ensures LeasedRuns.Effect(Writes, op, Some(m), 1).Some?
    ensures Coherent(LeasedRuns.Effect(Writes, op, Some(m), 1).value.upload) <==> !m.upload.published
  {
  }

  /** After that an upload makes the document call a private video published. */
  lemma ReuploadClaimsPublished(m: Metadata, videoUuid: string)
    requires m.upload.published && m.upload.videoUuid != "" && videoUuid != "" && m.media.filePath != ""
    ensures var order := [RemoveVideoOp(true, true, true), UploadOp(true, true, Uploaded(videoUuid))];
      var n := LeasedRuns.Serial(Writes, Some(m), order);
      && n.Some? && n.value.upload.videoUuid == videoUuid && n.value.upload.privacy == 3 && n.value.upload.published
  {
    var remove, upload := RemoveVideoOp(true, true, true), UploadOp(true, true, Uploaded(videoUuid));
    assert [remove, upload][..1] == [remove] && [remove][..0] == [];
    assert LeasedRuns.Serial(Writes, Some(m), [remove]) == After(remove, m);
    RemoveVideoLeaves(remove, m);
    UploadLeaves(upload, After(remove, m).value);
  }

  /** What one acquisition does to the publication: sets what it asks for, or leaves it. */
  ghost predicate Moves(asked: Option<int>, before: Upload, after: Upload) {
    && (asked.Some? ==> after.privacy == asked.value && (after.published <==> asked.value != 3))
    && (asked.None? ==> after.published == before.published && (before.published ==> after.privacy == before.privacy))
  }

  /** Only a publish moves the publication, as long as no published video is removed. */
  lemma OnlyPublishPublishes(op: Operation, m: Metadata, k: nat)
    requires Consistent(m) && Coherent(m.upload) && LeasedRuns.Effect(Writes, op, Some(m), k).Some?
    requires RemovesVideo(op, m, k) ==> !m.upload.published
    ensures var after := LeasedRuns.Effect(Writes, op, Some(m), k).value.upload;
      Coherent(after) && Moves(if SetsPrivacy(op, m, k) then Some(op.privacy) else None, m.upload, after)
  {
    if op.DeleteOp? {
      DeletionKeepsRecording(op, m, k);
      hide LeasedRuns.Effect;
      var n := LeasedRuns.Effect(Writes, op, Some(m), k).value;
      assert m.(deletion := None) == n.(deletion := None);
    } else if op.SyncOp? {
      OperationsKeepToTheirFields(op, m, k);
    }
  }

  /** This acquisition is a publish that was carried out. */
  ghost predicate Publishes(document: Document, order: seq<LeasedRuns.Entry<Operation>>, i: nat)
    requires i < |order|
  {
    var before := LeasedRuns.Replay(Writes, document, order[..i]);
    before.Some? && SetsPrivacy(order[i].op, before.value, order[i].written)
  }

  /** This acquisition removed a video that was published. */
  ghost predicate RemovesPublished(document: Document, order: seq<LeasedRuns.Entry<Operation>>, i: nat)
    requires i < |order|
  {
    var before := LeasedRuns.Replay(Writes, document, order[..i]);
    before.Some? && RemovesVideo(order[i].op, before.value, order[i].written) && before.value.upload.published
  }

  ghost predicate NoPublishedRemoved(document: Document, order: seq<LeasedRuns.Entry<Operation>>) {
    forall i :: 0 <= i < |order| ==> !RemovesPublished(document, order, i)
  }

  /** The last publish that was carried out. */
  ghost predicate LastPublish(document: Document, order: seq<LeasedRuns.Entry<Operation>>, i: nat)
    requires i < |order|
  {
    Publishes(document, order, i) && forall j :: i < j < |order| ==> !Publishes(document, order, j)
  }

  ghost predicate NeverPublished(document: Document, order: seq<LeasedRuns.Entry<Operation>>) {
    forall i :: 0 <= i < |order| ==> !Publishes(document, order, i)
  }

  /** The document's publication is what the last publish asked for; nothing without one. */
  ghost predicate AsAsked(document: Document, order: seq<LeasedRuns.Entry<Operation>>, upload: Upload) {
    && (NeverPublished(document, order) ==> !upload.published)
    && (forall i :: 0 <= i < |order| && LastPublish(document, order, i) ==> Follows(order[i].op, upload))
  }

  /** The publication is what this publish asked for. */
  ghost predicate Follows(op: Operation, upload: Upload) {
    op.PublishOp? ==> (upload.published <==> op.privacy != 3) && (upload.published ==> upload.privacy == op.privacy)
  }

  lemma EarlierStands(document: Document, order: seq<LeasedRuns.Entry<Operation>>, i: nat)
    requires i + 1 < |order|
    ensures Publishes(document, order[..|order| - 1], i) <==> Publishes(document, order, i)
    ensures RemovesPublished(document, order[..|order| - 1], i) <==> RemovesPublished(document, order, i)
  {
    assert order[..|order| - 1][..i] == order[..i];
  }

  lemma NoneRemovedBefore(document: Document, order: seq<LeasedRuns.Entry<Operation>>)
    requires order != [] && NoPublishedRemoved(document, order)
    ensures NoPublishedRemoved(document, order[..|order| - 1])
  {
    var init := order[..|order| - 1];
    forall i | 0 <= i < |init| ensures !RemovesPublished(document, init, i) {
      EarlierStands(document, order, i);
    }
  }

  lemma {:induction false} ReplayIsAsAsked(document: Document, order: seq<LeasedRuns.Entry<Operation>>)
    requires document.Some? ==> Consistent(document.value) && Coherent(document.value.upload) && !document.value.upload.published
    requires NoPublishedRemoved(document, order)
    ensures var after := LeasedRuns.Replay(Writes, document, order);
      after.Some? ==> AsAsked(document, order, after.value.upload) && Coherent(after.value.upload)
  {
    hide Consistent, Coherent, Writes;
    if order != [] {
      var n := |order| - 1;
      NoneRemovedBefore(document, order);
      ReplayIsAsAsked(document, order[..n]);
      ReplayKeepsConsistent(document, order[..n]);
      var before := LeasedRuns.Replay(Writes, document, order[..n]);
      if before.None? {
        NothingWithoutDocument(order[n].op, order[n].written);
      } else if LeasedRuns.Replay(Writes, document, order).Some? {
        assert !RemovesPublished(document, order, n);
        OnlyPublishPublishes(order[n].op, before.value, order[n].written);
        PublicationStep(document, order, before.value, LeasedRuns.Replay(Writes, document, order).value);
      }
    }
  }

  lemma PublicationStep(document: Document, order: seq<LeasedRuns.Entry<Operation>>, m: Metadata, n: Metadata)
    requires order != [] && LeasedRuns.Replay(Writes, document, order[..|order| - 1]) == Some(m)
    requires AsAsked(document, order[..|order| - 1], m.upload)
    requires Moves(if Publishes(document, order, |order| - 1) then Some(order[|order| - 1].op.privacy) else None, m.upload, n.upload)
    ensures AsAsked(document, order, n.upload)
  {
    hide Writes, Publishes, LastPublish;
    var last := |order| - 1;
    NeverBefore(document, order);
    forall i | 0 <= i < |order| && LastPublish(document, order, i) ensures Follows(order[i].op, n.upload) {
      if i < last {
        LastBefore(document, order, i);
        assert Follows(order[..last][i].op, m.upload);
      } else {
        LastIsPublish(document, order, i);
      }
    }
  }

  lemma LastIsPublish(document: Document, order: seq<LeasedRuns.Entry<Operation>>, i: nat)
    requires i < |order| && LastPublish(document, order, i)
    ensures Publishes(document, order, i)
  {
  }

  lemma NeverBefore(document: Document, order: seq<LeasedRuns.Entry<Operation>>)
    requires order != []
    ensures NeverPublished(document, order) ==>
      NeverPublished(document, order[..|order| - 1]) && !Publishes(document, order, |order| - 1)
  {
    var init := order[..|order| - 1];
    forall i | 0 <= i < |init| ensures Publishes(document, init, i) <==> Publishes(document, order, i) {
      EarlierStands(document, order, i);
    }
    hide Publishes;
  }

  /** A publish that is still the last one was so before the last acquisition. */
  lemma LastBefore(document: Document, order: seq<LeasedRuns.Entry<Operation>>, i: nat)
    requires i + 1 < |order| && LastPublish(document, order, i)
    ensures LastPublish(document, order[..|order| - 1], i) && !Publishes(document, order, |order| - 1)
  {
    var init := order[..|order| - 1];
    forall j | 0 <= j < |init| ensures Publishes(document, init, j) <==> Publishes(document, order, j) {
      EarlierStands(document, order, j);
    }
    hide Publishes;
  }

  /** Over every interleaving that removes no published video, crashes included: a recording
      is public exactly as the last publish that was carried out asked, and never without one. */
  lemma PublicOnlyAsAsked(now: int, document: Document, events: seq<LeasedRuns.Event<Operation>>)
    requires document.Some? ==> Consistent(document.value) && Coherent(document.value.upload) && !document.value.upload.published
    requires LeasedRuns.Exec(Writes, LeasedRuns.Start(now, document), events).Some?
    requires NoPublishedRemoved(document, LeasedRuns.Exec(Writes, LeasedRuns.Start(now, document), events).value.order)
    ensures var s := LeasedRuns.Exec(Writes, LeasedRuns.Start(now, document), events).value;
      s.document.Some? ==> AsAsked(document, s.order, s.document.value.upload) && Coherent(s.document.value.upload)
  {
    hide Consistent, Coherent, Writes, AsAsked, NoPublishedRemoved;
    LeasedRuns.AlwaysInAcquisitionOrder(Writes, now, document, events);
    ReplayIsAsAsked(document, LeasedRuns.Exec(Writes, LeasedRuns.Start(now, document), events).value.order);
  }

  lemma FreshIsConsistent(m: Metadata)
    requires Fresh(m)
    ensures Consistent(m) && Coherent(m.upload) && !m.upload.published
  {
  }
}
