/**
 Resumable permanent deletion of a recording (kamrui-media-edge/camera-api/server.js).
 One attempt is the list of durable states it passes through; a crash keeps a prefix
 of that list and loses everything in memory.
 */
module PermanentDelete {
  import opened Wrappers
  import opened RecordingMetadata

  datatype Tombstone = NoTombstone | Requested | Complete

  /** What survives a crash: the catalog row, the local file it names, the remote copy
      it names, and the tombstone. */
  datatype Disk = Disk(row: Option<Metadata>, localFile: bool, remoteFile: bool, tombstone: Tombstone)

  datatype Request = Request(sessionId: string, requestId: string, ifMatch: string, confirm: string, busy: bool)

  /** What the file system, the configuration and ssh answer during one attempt.
      `sshRemoves` without `sshReports` is a removal whose confirmation was lost. */
  datatype Outcomes = Outcomes(
    insideCompleted: bool, rmRemoves: bool, localWriteOk: bool,
    destinationAllowed: bool, sshRemoves: bool, sshReports: bool, remoteWriteOk: bool)

  /** An attempt so far: durable states passed, the document in memory, and whether an
      error was collected. */
  datatype Progress = Progress(states: seq<Disk>, memory: Metadata, failed: bool)

  function Last(d: Disk, states: seq<Disk>): Disk {
    if states == [] then d else states[|states| - 1]
  }

  /** What the handler answers: the refusals in the order of its checks, and the outcomes. */
  datatype Answer = RevisionRequired | NoSuchRecording | Blocked | StaleRevision | NotConfirmed | PartialFailure | Deleted

  predicate Admitted(m: Metadata, r: Request) {
    && r.ifMatch != ""
    && !r.busy && !IsSyncing(m) && !IsUploading(m)
    && RevisionPrecondition(r.ifMatch, Revision(m, r.sessionId)) == Accepted
    && r.confirm == r.sessionId
  }

  predicate RemoteRequired(m: Metadata) {
    m.sync.synced || m.sync.verified
  }

  function Flags(m: Metadata): Deletion {
    if m.deletion.Some? then m.deletion.value else Deletion("", "", false, false, false, false)
  }

  function SetDeletion(m: Metadata, d: Deletion): Metadata {
    m.(deletion := Some(d))
  }

  function Locked(m: Metadata, r: Request): Metadata {
    SetDeletion(m, Flags(m).(status := "locked", requestId := r.requestId, errors := false))
  }

  function LocalDeleted(m: Metadata): Metadata {
    SetDeletion(m, Flags(m).(localDeleted := true, status := "local_deleted"))
  }

  function RemoteVerified(m: Metadata): Metadata {
    SetDeletion(m, Flags(m).(remoteDeleted := true, remoteVerified := true, status := "remote_verified"))
  }

  /** Deleting the local copy, from durable state `d`. */
  function DeleteLocal(d: Disk, m: Metadata, o: Outcomes): Progress {
    if !Flags(m).localDeleted && m.media.filePath != "" && d.localFile then
      if !o.insideCompleted || !o.rmRemoves then Progress([], m, true)
      else
        var removed := d.(localFile := false);
        var m' := LocalDeleted(m);
        if o.localWriteOk then Progress([removed, removed.(row := Some(m'))], m', false)
        else Progress([removed], m', true)
    else if m.media.filePath == "" || !d.localFile then
      Progress([], SetDeletion(m, Flags(m).(localDeleted := true)), false)
    else Progress([], m, false)
  }

  /** Deleting and verifying the remote copy. */
  function DeleteRemote(d: Disk, m: Metadata, o: Outcomes): Progress {
    if RemoteRequired(m) && !Flags(m).remoteVerified then
      if !o.destinationAllowed then Progress([], m, true)
      else if !o.sshRemoves then Progress([], m, true)
      else
        var removed := d.(remoteFile := false);
        if !o.sshReports then Progress([removed], m, true)
        else
          var m' := RemoteVerified(m);
          if o.remoteWriteOk then Progress([removed, removed.(row := Some(m'))], m', false)
          else Progress([removed], m', true)
    else if !RemoteRequired(m) then
      Progress([], SetDeletion(m, Flags(m).(remoteDeleted := true, remoteVerified := true)), false)
    else Progress([], m, false)
  }

  /** The verdict: report a partial failure, or complete the tombstone and drop the row. */
  function Conclude(d: Disk, m: Metadata, failed: bool): seq<Disk> {
    var gone := m.media.filePath == "" || !d.localFile;
    if failed || !gone || !Flags(m).remoteVerified
    then [d.(row := Some(SetDeletion(m, Flags(m).(status := "partial_failure", errors := failed || !gone))))]
    else [d.(tombstone := Complete), d.(tombstone := Complete, row := None)]
  }

  /** The document as the attempt locks it. */
  function LockedRow(d: Disk, r: Request): Disk
    requires d.row.Some?
  {
    d.(row := Some(Locked(d.row.value, r)))
  }

  /** What follows the tombstone: local copy, remote copy, verdict. */
  function Removal(d: Disk, m: Metadata, o: Outcomes): seq<Disk> {
    var local := DeleteLocal(d, m, o);
    var afterLocal := Last(d, local.states);
    var remote := DeleteRemote(afterLocal, local.memory, o);
    var afterRemote := Last(afterLocal, remote.states);
    local.states + remote.states + Conclude(afterRemote, remote.memory, local.failed || remote.failed)
  }

  /** The durable states of one attempt that is not interrupted. */
  function Attempt(d: Disk, r: Request, o: Outcomes): seq<Disk> {
    if d.row.None? || !Admitted(d.row.value, r) then []
    else
      var locked := LockedRow(d, r);
      var requested := locked.(tombstone := Requested);
      [locked, requested] + Removal(requested, locked.row.value, o)
  }

  datatype Run = Run(request: Request, outcomes: Outcomes, survives: nat)

  /** An attempt that crashes after `survives` durable effects, or runs to its end. */
  function Interrupted(d: Disk, run: Run): Disk {
    var states := Attempt(d, run.request, run.outcomes);
    if run.survives < |states| then Last(d, states[..run.survives]) else Last(d, states)
  }

  function RunAll(d: Disk, runs: seq<Run>): Disk
    decreases runs
  {
    if runs == [] then d else RunAll(Interrupted(d, runs[0]), runs[1..])
  }

  // --- Which requests delete ---

  /** Another operation has the recording. */
  ghost predicate InUse(m: Metadata, r: Request) {
    r.busy || m.sync.state == "syncing" || m.upload.state == "uploading"
  }

  /** The request names this text, bare or in double quotes. */
  ghost predicate Matches(r: Request, revision: string) {
    r.ifMatch != "" && r.ifMatch in {revision, "\"" + revision + "\""}
  }

  /** The revision is the checksum; without one the time of finalization; without that the id. */
  ghost predicate NamesRevision(media: Media, r: Request) {
    && (media.checksum != "" ==> Matches(r, media.checksum))
    && (media.checksum == "" && media.finalizedAt != "" ==> Matches(r, media.finalizedAt))
    && (media.checksum == "" && media.finalizedAt == "" ==> Matches(r, r.sessionId))
  }

  /** The requests that may delete: confirmed, of the current revision, with nothing else at work. */
  ghost predicate MayDelete(row: Option<Metadata>, r: Request) {
    row.Some? && NamesRevision(row.value.media, r) && !InUse(row.value, r) && r.confirm == r.sessionId
  }

  lemma AdmittedIff(m: Metadata, r: Request)
    ensures Admitted(m, r) <==> MayDelete(Some(m), r)
  {
  }

  /** Whether the attempt can see to the local copy: there is none, or its removal succeeds. */
  ghost predicate LocalSettled(d: Disk, m: Metadata, o: Outcomes) {
    || m.media.filePath == "" || !d.localFile
    || (!Flags(m).localDeleted && o.insideCompleted && o.rmRemoves && o.localWriteOk)
  }

  /** Likewise for the remote copy: none was made, it was removed before, or it is removed now. */
  ghost predicate RemoteSettled(m: Metadata, o: Outcomes) {
    || (!m.sync.synced && !m.sync.verified) || Flags(m).remoteVerified
    || (o.destinationAllowed && o.sshRemoves && o.sshReports && o.remoteWriteOk)
  }

  /** A durable state of an attempt on `m` from `d`: copies are only removed, only those the
      document names and the guards let through, and only after the tombstone. */
  ghost predicate Careful(d: Disk, m: Metadata, r: Request, o: Outcomes, s: Disk) {
    && (s.localFile == d.localFile || (d.localFile && m.media.filePath != "" && o.insideCompleted && !Flags(m).localDeleted))
    && (s.remoteFile == d.remoteFile
        || (d.remoteFile && (m.sync.synced || m.sync.verified) && o.destinationAllowed && !Flags(m).remoteVerified))
    && (s.tombstone == NoTombstone ==> s.row.Some? && s.localFile == d.localFile && s.remoteFile == d.remoteFile)
    && (s.row.Some? ==> SameRecording(m, s.row.value) && Flags(s.row.value).requestId == r.requestId)
    && (s.row.Some? ==> Claims(m, s.row.value))
  }

  /** A remote copy newly said to be verified gone is also said to be deleted. */
  ghost predicate Claims(m: Metadata, n: Metadata) {
    Flags(n).remoteVerified && !Flags(m).remoteVerified ==> Flags(n).remoteDeleted
  }

  ghost predicate AllCareful(d: Disk, m: Metadata, r: Request, o: Outcomes, states: seq<Disk>) {
    forall i :: 0 <= i < |states| ==> Careful(d, m, r, o, states[i])
  }

  /** The document in memory during an attempt on `m`, at the durable state `s`. */
  ghost predicate InMemory(d: Disk, m: Metadata, r: Request, o: Outcomes, s: Disk, memory: Metadata) {
    && Careful(d, m, r, o, s) && s.row.Some? && s.tombstone == Requested
    && SameRecording(m, memory) && Flags(memory).requestId == r.requestId && Claims(m, memory)
  }

  lemma LocalIsCareful(d: Disk, m: Metadata, r: Request, o: Outcomes, s: Disk, memory: Metadata)
    requires InMemory(d, m, r, o, s, memory) && s.localFile == d.localFile && Flags(memory).localDeleted == Flags(m).localDeleted
    ensures var p := DeleteLocal(s, memory, o);
      && AllCareful(d, m, r, o, p.states) && InMemory(d, m, r, o, Last(s, p.states), p.memory)
      && Flags(p.memory).remoteVerified == Flags(memory).remoteVerified && Last(s, p.states).remoteFile == s.remoteFile
      && (p.failed || (m.media.filePath != "" && Last(s, p.states).localFile) <==> !LocalSettled(d, m, o))
  {
  }

  lemma RemoteIsCareful(d: Disk, m: Metadata, r: Request, o: Outcomes, s: Disk, memory: Metadata)
    requires InMemory(d, m, r, o, s, memory) && s.remoteFile == d.remoteFile && Flags(memory).remoteVerified == Flags(m).remoteVerified
    ensures var p := DeleteRemote(s, memory, o);
      && AllCareful(d, m, r, o, p.states) && InMemory(d, m, r, o, Last(s, p.states), p.memory)
      && Last(s, p.states).localFile == s.localFile
      && (p.failed || !Flags(p.memory).remoteVerified <==> !RemoteSettled(m, o))
  {
  }

  /** The row tells what is left to do. */
  ghost predicate Reports(row: Option<Metadata>, r: Request) {
    && row.Some? && row.value.deletion.Some?
    && row.value.deletion.value.status == "partial_failure" && row.value.deletion.value.errors
    && row.value.deletion.value.requestId == r.requestId
  }

  lemma ConclusionIsCareful(d: Disk, m: Metadata, r: Request, o: Outcomes, s: Disk, memory: Metadata, failed: bool)
    requires InMemory(d, m, r, o, s, memory) && (Flags(memory).remoteVerified || failed)
    ensures var states := Conclude(s, memory, failed);
      && states != [] && AllCareful(d, m, r, o, states)
      && (Last(s, states).row.None? <==> !failed && (m.media.filePath == "" || !s.localFile))
      && (Last(s, states).row.Some? ==> Reports(Last(s, states).row, r))
  {
  }

  lemma AppendCareful(d: Disk, m: Metadata, r: Request, o: Outcomes, a: seq<Disk>, b: seq<Disk>)
    requires AllCareful(d, m, r, o, a) && AllCareful(d, m, r, o, b)
    ensures AllCareful(d, m, r, o, a + b)
  {
  }

  lemma RemovalIsCareful(d: Disk, m: Metadata, r: Request, o: Outcomes, s: Disk, memory: Metadata)
    requires InMemory(d, m, r, o, s, memory) && s.localFile == d.localFile && s.remoteFile == d.remoteFile
    requires Flags(memory).localDeleted == Flags(m).localDeleted && Flags(memory).remoteVerified == Flags(m).remoteVerified
    ensures var states := Removal(s, memory, o);
      && states != [] && AllCareful(d, m, r, o, states)
      && (Last(s, states).row.None? <==> LocalSettled(d, m, o) && RemoteSettled(m, o))
      && (Last(s, states).row.Some? ==> Reports(Last(s, states).row, r))
  {
    hide DeleteLocal, DeleteRemote, Conclude, Careful, AllCareful, Reports;
    var local := DeleteLocal(s, memory, o);
    var afterLocal := Last(s, local.states);
    LocalIsCareful(d, m, r, o, s, memory);
    var remote := DeleteRemote(afterLocal, local.memory, o);
    var afterRemote := Last(afterLocal, remote.states);
    RemoteIsCareful(d, m, r, o, afterLocal, local.memory);
    RemoteUnverifiedFails(afterLocal, local.memory, o);
    var verdict := Conclude(afterRemote, remote.memory, local.failed || remote.failed);
    ConclusionIsCareful(d, m, r, o, afterRemote, remote.memory, local.failed || remote.failed);
    AppendCareful(d, m, r, o, local.states, remote.states);
    AppendCareful(d, m, r, o, local.states + remote.states, verdict);
  }

  lemma RemoteUnverifiedFails(d: Disk, m: Metadata, o: Outcomes)
    ensures Flags(DeleteRemote(d, m, o).memory).remoteVerified || DeleteRemote(d, m, o).failed
  {
  }

  /** What an attempt that is let through does, whatever was left by earlier ones. */
  lemma AttemptIsCareful(d: Disk, r: Request, o: Outcomes)
    requires MayDelete(d.row, r)
    ensures var states := Attempt(d, r, o);
      && states != [] && AllCareful(d, d.row.value, r, o, states)
      && (Last(d, states).row.None? <==> LocalSettled(d, d.row.value, o) && RemoteSettled(d.row.value, o))
      && (Last(d, states).row.Some? ==> Reports(Last(d, states).row, r))
  {
    assert d.row.Some?;
    hide MayDelete, Admitted, Removal, LocalSettled, RemoteSettled, Reports;
    var m := d.row.value;
    AdmittedIff(m, r);
    var locked := LockedRow(d, r);
    var requested := locked.(tombstone := Requested);
    RemovalIsCareful(d, m, r, o, requested, locked.row.value);
    AppendCareful(d, m, r, o, [locked, requested], Removal(requested, locked.row.value, o));
  }

  /** The runs whose request may delete the recording. */
  ghost function Entitled(row: Option<Metadata>, runs: seq<Run>): seq<Run>
    decreases runs
  {
    if runs == [] then []
    else (if MayDelete(row, runs[0].request) then [runs[0]] else []) + Entitled(row, runs[1..])
  }

  /** Requests that may not delete leave no trace in any history: dropping them changes
      nothing, however many there are and wherever they come. */
  lemma {:induction false} OnlyEntitledRequestsCount(d: Disk, runs: seq<Run>)
    ensures RunAll(d, runs) == RunAll(d, Entitled(d.row, runs))
    decreases runs
  {
    hide MayDelete, Interrupted;
    if runs != [] {
      var run := runs[0];
      OnlyEntitledRequestsCount(Interrupted(d, run), runs[1..]);
      var rest := Entitled(d.row, runs[1..]);
      if MayDelete(d.row, run.request) {
        EntitledAfter(d, run, runs[1..]);
        assert ([run] + rest)[1..] == rest;
        assert RunAll(d, [run] + rest) == RunAll(Interrupted(d, run), rest);
      } else {
        RefusedChangesNothing(d, run);
        assert [] + rest == rest;
      }
    }
  }

  lemma RefusedChangesNothing(d: Disk, run: Run)
    requires !MayDelete(d.row, run.request)
    ensures Interrupted(d, run) == d
  {
    hide MayDelete, Admitted;
    if d.row.Some? {
      AdmittedIff(d.row.value, run.request);
    }
  }

  /** A deletion does not change what its requests are checked against. */
  lemma {:induction false} EntitledAfter(d: Disk, run: Run, runs: seq<Run>)
    requires MayDelete(d.row, run.request)
    ensures RunAll(Interrupted(d, run), Entitled(Interrupted(d, run).row, runs)) == RunAll(Interrupted(d, run), Entitled(d.row, runs))
  {
    var d' := Interrupted(d, run);
    AttemptIsCareful(d, run.request, run.outcomes);
    if d'.row.Some? {
      assert SameRecording(d.row.value, d'.row.value);
      SameEntitled(d.row, d'.row, runs);
    } else {
      NothingLeftToDo(d', Entitled(d'.row, runs));
      NothingLeftToDo(d', Entitled(d.row, runs));
    }
  }

  lemma {:induction false} SameEntitled(a: Option<Metadata>, b: Option<Metadata>, runs: seq<Run>)
    requires a.Some? && b.Some? && SameRecording(a.value, b.value)
    ensures Entitled(a, runs) == Entitled(b, runs)
    decreases runs
  {
    if runs != [] {
      SameEntitled(a, b, runs[1..]);
      assert MayDelete(a, runs[0].request) <==> MayDelete(b, runs[0].request) by {
        assert a.value.(deletion := None) == b.value.(deletion := None);
        assert a.value.media == b.value.media && a.value.sync == b.value.sync && a.value.upload == b.value.upload;
      }
    }
  }

  // --- What holds at every durable state ---

  ghost predicate LocalGone(d: Disk, m: Metadata) {
    m.media.filePath == "" || !d.localFile
  }

  ghost predicate RemoteGone(d: Disk, m: Metadata) {
    RemoteRequired(m) ==> !d.remoteFile
  }

  /** The flags in a document tell the truth about the copies. */
  ghost predicate Truthful(d: Disk, m: Metadata) {
    (Flags(m).localDeleted ==> LocalGone(d, m)) && (Flags(m).remoteVerified ==> RemoteGone(d, m))
  }

  /** The same recording: only the deletion state of the document may differ. */
  predicate SameRecording(m: Metadata, n: Metadata) {
    m.(deletion := None) == n.(deletion := None)
  }

  /** No flag of `m` is lost in `n`. */
  predicate KeepsFlags(m: Metadata, n: Metadata) {
    && (Flags(m).localDeleted ==> Flags(n).localDeleted)
    && (Flags(m).remoteVerified ==> Flags(n).remoteVerified)
  }

  /** A durable state reached from one whose row was `m`: the row is still there with
      every flag kept and true, or everything it named is gone. */
  ghost predicate Good(m: Metadata, d: Disk) {
    match d.row
    case Some(n) => SameRecording(m, n) && KeepsFlags(m, n) && Truthful(d, n)
    case None => LocalGone(d, m) && RemoteGone(d, m) && d.tombstone == Complete
  }

  /** A document in memory, together with the durable row it stems from. */
  ghost predicate Carries(m: Metadata, d: Disk, memory: Metadata) {
    && Good(m, d) && d.row.Some?
    && SameRecording(m, memory) && KeepsFlags(d.row.value, memory) && Truthful(d, memory)
  }

  ghost predicate AllGood(m: Metadata, states: seq<Disk>) {
    forall i :: 0 <= i < |states| ==> Good(m, states[i])
  }

  lemma LocalIsGood(m: Metadata, d: Disk, memory: Metadata, o: Outcomes)
    requires Carries(m, d, memory)
    ensures var p := DeleteLocal(d, memory, o);
      AllGood(m, p.states) && Carries(m, Last(d, p.states), p.memory)
  {
  }

  lemma RemoteIsGood(m: Metadata, d: Disk, memory: Metadata, o: Outcomes)
    requires Carries(m, d, memory)
    ensures var p := DeleteRemote(d, memory, o);
      AllGood(m, p.states) && Carries(m, Last(d, p.states), p.memory)
  {
  }

  lemma ConclusionIsGood(m: Metadata, d: Disk, memory: Metadata, failed: bool)
    requires Carries(m, d, memory)
    ensures AllGood(m, Conclude(d, memory, failed))
  {
  }

  lemma BothGood(m: Metadata, a: seq<Disk>, b: seq<Disk>)
    requires AllGood(m, a) && AllGood(m, b)
    ensures AllGood(m, a + b)
  {
  }

  lemma RemovalIsGood(m: Metadata, d: Disk, memory: Metadata, o: Outcomes)
    requires Carries(m, d, memory)
    ensures AllGood(m, Removal(d, memory, o))
  {
    var local := DeleteLocal(d, memory, o);
    var afterLocal := Last(d, local.states);
    LocalIsGood(m, d, memory, o);
    var remote := DeleteRemote(afterLocal, local.memory, o);
    var afterRemote := Last(afterLocal, remote.states);
    RemoteIsGood(m, afterLocal, local.memory, o);
    ConclusionIsGood(m, afterRemote, remote.memory, local.failed || remote.failed);
    BothGood(m, local.states, remote.states);
    BothGood(m, local.states + remote.states, Conclude(afterRemote, remote.memory, local.failed || remote.failed));
  }

  lemma AttemptIsGood(d: Disk, r: Request, o: Outcomes)
    requires d.row.Some? && Truthful(d, d.row.value)
    ensures AllGood(d.row.value, Attempt(d, r, o))
  {
    var m := d.row.value;
    if Admitted(m, r) {
      var locked := LockedRow(d, r);
      var requested := locked.(tombstone := Requested);
      RemovalIsGood(m, requested, locked.row.value, o);
      BothGood(m, [locked, requested], Removal(requested, locked.row.value, o));
    }
  }

  lemma RemovalSplits(d: Disk, m: Metadata, o: Outcomes, afterLocal: Disk, afterRemote: Disk)
    requires afterLocal == Last(d, DeleteLocal(d, m, o).states)
    requires afterRemote == Last(afterLocal, DeleteRemote(afterLocal, DeleteLocal(d, m, o).memory, o).states)
    ensures var local := DeleteLocal(d, m, o);
      var remote := DeleteRemote(afterLocal, local.memory, o);
      var verdict := Conclude(afterRemote, remote.memory, local.failed || remote.failed);
      && Removal(d, m, o) == local.states + remote.states + verdict
      && Last(d, Removal(d, m, o)) == Last(afterRemote, verdict)
  {
  }

  lemma AttemptSplits(d: Disk, r: Request, o: Outcomes, requested: Disk)
    requires d.row.Some? && Admitted(d.row.value, r)
    requires requested == LockedRow(d, r).(tombstone := Requested)
    ensures Attempt(d, r, o) == [LockedRow(d, r), requested] + Removal(requested, requested.row.value, o)
    ensures Last(d, Attempt(d, r, o)) == Last(requested, Removal(requested, requested.row.value, o))
  {
  }

  lemma LocalStep(d: Disk, m: Metadata, o: Outcomes, before: seq<Disk>, after: seq<Disk>)
    requires after == before + DeleteLocal(d, m, o).states
    ensures var p := DeleteLocal(d, m, o);
      && after[|before|..] == p.states
      && (p.failed ==> Last(d, p.states).row == d.row)
      && Last(d, p.states).remoteFile == d.remoteFile && Last(d, p.states).tombstone == d.tombstone
      && forall origin :: Carries(origin, d, m) ==>
        && AllGood(origin, p.states) && Carries(origin, Last(d, p.states), p.memory)
        && (!p.failed ==> LocalGone(Last(d, p.states), p.memory) && Flags(p.memory).localDeleted)
  {
    hide AllGood;
    forall origin | Carries(origin, d, m)
      ensures var p := DeleteLocal(d, m, o);
        && AllGood(origin, p.states) && Carries(origin, Last(d, p.states), p.memory)
        && (!p.failed ==> LocalGone(Last(d, p.states), p.memory) && Flags(p.memory).localDeleted)
    {
      LocalIsGood(origin, d, m, o);
    }
  }

  lemma RemoteStep(d: Disk, m: Metadata, o: Outcomes, before: seq<Disk>, after: seq<Disk>)
    requires after == before + DeleteRemote(d, m, o).states
    ensures var p := DeleteRemote(d, m, o);
      && after[|before|..] == p.states
      && (p.failed ==> Last(d, p.states).row == d.row)
      && Last(d, p.states).localFile == d.localFile && Last(d, p.states).tombstone == d.tombstone
      && forall origin :: Carries(origin, d, m) ==>
        && AllGood(origin, p.states) && Carries(origin, Last(d, p.states), p.memory)
        && (!p.failed ==> RemoteGone(Last(d, p.states), p.memory) && Flags(p.memory).remoteVerified)
  {
    hide AllGood;
    forall origin | Carries(origin, d, m)
      ensures var p := DeleteRemote(d, m, o);
        && AllGood(origin, p.states) && Carries(origin, Last(d, p.states), p.memory)
        && (!p.failed ==> RemoteGone(Last(d, p.states), p.memory) && Flags(p.memory).remoteVerified)
    {
      RemoteIsGood(origin, d, m, o);
    }
  }

  lemma RefusedAttempt(d: Disk, r: Request, o: Outcomes)
    ensures !MayDelete(d.row, r) ==> Attempt(d, r, o) == []
    ensures forall m :: AllGood(m, []) && AllCareful(d, m, r, o, [])
  {
    hide MayDelete, Admitted;
    if d.row.Some? {
      AdmittedIff(d.row.value, r);
    }
  }

  lemma AttemptStep(d: Disk, r: Request, o: Outcomes, before: seq<Disk>, after: seq<Disk>, end: Disk)
    requires d.row.Some? && after == before + Attempt(d, r, o)
    requires Attempt(d, r, o) != [] && end == Last(d, Attempt(d, r, o))
    ensures before <= after
    ensures Truthful(d, d.row.value) ==>
      && AllGood(d.row.value, after[|before|..])
      && (end.row.None? ==> LocalGone(end, d.row.value) && RemoteGone(end, d.row.value) && end.tombstone == Complete)
  {
    hide Attempt, LocalGone, RemoteGone, Truthful;
    if Truthful(d, d.row.value) {
      AttemptIsGood(d, r, o);
      assert after[|before|..] == Attempt(d, r, o);
      assert Good(d.row.value, end);
    }
  }

  /** The recording's durable state as the handler changes it, effect by effect.
      `passed` lists the durable states in order. */
  class Catalog {
    var row: Option<Metadata>
    var localFile: bool
    var remoteFile: bool
    var tombstone: Tombstone
    ghost var passed: seq<Disk>

    function Current(): Disk
      reads this
    {
      Disk(row, localFile, remoteFile, tombstone)
    }

    constructor (d: Disk)
      ensures Current() == d && passed == []
    {
      row, localFile, remoteFile, tombstone := d.row, d.localFile, d.remoteFile, d.tombstone;
      passed := [];
    }

    method WriteRow(m: Metadata)
      modifies this
      ensures Current() == old(Current()).(row := Some(m))
      ensures passed == old(passed) + [Current()]
    {
      row := Some(m);
      passed := passed + [Current()];
    }

    method WriteTombstone(t: Tombstone)
      modifies this
      ensures Current() == old(Current()).(tombstone := t)
      ensures passed == old(passed) + [Current()]
    {
      tombstone := t;
      passed := passed + [Current()];
    }

    /** The local copy goes before any document says so, whatever recording the row stems
        from; without failure it is gone and the memory says so, with failure the row is as
        it was. */
    method RemoveLocal(m: Metadata, o: Outcomes) returns (memory: Metadata, failed: bool)
      modifies this
      ensures old(passed) <= passed
      ensures forall origin :: Carries(origin, old(Current()), m) ==>
        && AllGood(origin, passed[|old(passed)|..])
        && Carries(origin, Current(), memory)
        && (!failed ==> LocalGone(Current(), memory) && Flags(memory).localDeleted)
      ensures failed ==> row == old(row)
      ensures remoteFile == old(remoteFile) && tombstone == old(tombstone)
      ensures var p := DeleteLocal(old(Current()), m, o);
        && passed == old(passed) + p.states && Current() == Last(old(Current()), p.states)
        && memory == p.memory && failed == p.failed
    {
      memory, failed := m, false;
      if !Flags(m).localDeleted && m.media.filePath != "" && localFile {
        if o.insideCompleted && o.rmRemoves {
          localFile := false;
          passed := passed + [Current()];
          memory := LocalDeleted(m);
          if o.localWriteOk {
            WriteRow(memory);
          } else {
            failed := true;
          }
        } else {
          failed := true;
        }
      } else if m.media.filePath == "" || !localFile {
        memory := SetDeletion(m, Flags(m).(localDeleted := true));
      }
      LocalStep(old(Current()), m, o, old(passed), passed);
      hide DeleteLocal, Carries, AllGood, Last;
    }

    /** Likewise for the remote copy, which is also confirmed to be gone. */
    method RemoveRemote(m: Metadata, o: Outcomes) returns (memory: Metadata, failed: bool)
      modifies this
      ensures old(passed) <= passed
      ensures forall origin :: Carries(origin, old(Current()), m) ==>
        && AllGood(origin, passed[|old(passed)|..])
        && Carries(origin, Current(), memory)
        && (!failed ==> RemoteGone(Current(), memory) && Flags(memory).remoteVerified)
      ensures failed ==> row == old(row)
      ensures localFile == old(localFile) && tombstone == old(tombstone)
      ensures var p := DeleteRemote(old(Current()), m, o);
        && passed == old(passed) + p.states && Current() == Last(old(Current()), p.states)
        && memory == p.memory && failed == p.failed
    {
      memory, failed := m, false;
      if RemoteRequired(m) && !Flags(m).remoteVerified {
        failed := !o.destinationAllowed || !o.sshRemoves || !o.sshReports || !o.remoteWriteOk;
        if o.destinationAllowed && o.sshRemoves {
          remoteFile := false;
          passed := passed + [Current()];
          if o.sshReports {
            memory := RemoteVerified(m);
            if o.remoteWriteOk {
              WriteRow(memory);
            }
          }
        }
      } else if !RemoteRequired(m) {
        memory := SetDeletion(m, Flags(m).(remoteDeleted := true, remoteVerified := true));
      }
      RemoteStep(old(Current()), m, o, old(passed), passed);
      hide DeleteRemote, Carries, AllGood, Last;
    }

    method Finish(m: Metadata, failed: bool) returns (completed: bool)
      modifies this
      ensures passed == old(passed) + Conclude(old(Current()), m, failed)
      ensures Current() == Last(old(Current()), Conclude(old(Current()), m, failed))
      ensures completed <==> row.None?
    {
      var gone := m.media.filePath == "" || !localFile;
      if failed || !gone || !Flags(m).remoteVerified {
        WriteRow(SetDeletion(m, Flags(m).(status := "partial_failure", errors := failed || !gone)));
        return false;
      }
      WriteTombstone(Complete);
      row := None;
      passed := passed + [Current()];
      return true;
    }

    method RemoveCopies(m: Metadata, o: Outcomes) returns (completed: bool)
      modifies this
      ensures passed == old(passed) + Removal(old(Current()), m, o)
      ensures Current() == Last(old(Current()), Removal(old(Current()), m, o))
      ensures completed <==> row.None?
    {
      hide DeleteLocal, DeleteRemote, Conclude, Removal, Last;
      ghost var d := Current();
      var memory, localFailed := RemoveLocal(m, o);
      ghost var afterLocal := Current();
      var memory', remoteFailed := RemoveRemote(memory, o);
      RemovalSplits(d, m, o, afterLocal, Current());
      completed := Finish(memory', localFailed || remoteFailed);
    }

    /** Record the intent: the locked document, then the tombstone. */
    method RecordIntent(r: Request) returns (memory: Metadata)
      requires row.Some?
      modifies this
      ensures var locked := LockedRow(old(Current()), r);
        && memory == locked.row.value && Current() == locked.(tombstone := Requested)
        && passed == old(passed) + [locked, Current()]
    {
      memory := Locked(row.value, r);
      WriteRow(memory);
      WriteTombstone(Requested);
    }

    /** DELETE /api/recordings/:id, when nothing interrupts it. Anything is written exactly for
        the requests that may delete; the others are told which check they failed. */
    method DeletePermanently(r: Request, o: Outcomes) returns (answer: Answer)
      modifies this
      ensures passed == old(passed) + Attempt(old(Current()), r, o)
      ensures Current() == Last(old(Current()), Attempt(old(Current()), r, o))
      ensures passed != old(passed) <==> MayDelete(old(row), r)
      ensures answer == RevisionRequired <==> r.ifMatch == ""
      ensures answer == NoSuchRecording <==> r.ifMatch != "" && old(row).None?
      ensures answer == Blocked <==> r.ifMatch != "" && old(row).Some? && InUse(old(row).value, r)
      ensures answer == StaleRevision <==>
        r.ifMatch != "" && old(row).Some? && !InUse(old(row).value, r) && !NamesRevision(old(row).value.media, r)
      ensures answer == NotConfirmed <==>
        old(row).Some? && !InUse(old(row).value, r) && NamesRevision(old(row).value.media, r) && r.confirm != r.sessionId
      ensures !MayDelete(old(row), r) ==> Current() == old(Current())
      ensures answer == Deleted <==>
        MayDelete(old(row), r) && LocalSettled(old(Current()), old(row).value, o) && RemoteSettled(old(row).value, o)
      ensures answer == Deleted <==> old(row).Some? && row.None?
      ensures answer == PartialFailure ==> Reports(row, r)
      ensures old(row).Some? ==> AllCareful(old(Current()), old(row).value, r, o, passed[|old(passed)|..])
      ensures old(row).Some? && Truthful(old(Current()), old(row).value) ==>
        && AllGood(old(row).value, passed[|old(passed)|..])
        && (answer == Deleted ==> LocalGone(Current(), old(row).value) && RemoteGone(Current(), old(row).value) && tombstone == Complete)
    {
      ghost var d := Current();
      RefusedAttempt(d, r, o);
      hide Attempt, Removal, Locked, Good, Truthful, AllGood, AllCareful, LocalSettled, RemoteSettled, Reports;
      if r.ifMatch == "" {
        return RevisionRequired;
      }
      if row.None? {
        return NoSuchRecording;
      }
      if r.busy || IsSyncing(row.value) || IsUploading(row.value) {
        return Blocked;
      }
      if RevisionPrecondition(r.ifMatch, Revision(row.value, r.sessionId)) != Accepted {
        return StaleRevision;
      }
      if r.confirm != r.sessionId {
        return NotConfirmed;
      }
      AttemptIsCareful(d, r, o);
      var memory := RecordIntent(r);
      ghost var requested := Current();
      var completed := RemoveCopies(memory, o);
      AdmittedIff(d.row.value, r);
      AttemptSplits(d, r, o, requested);
      AttemptStep(d, r, o, old(passed), passed, Current());
      assert passed[|old(passed)|..] == Attempt(d, r, o);
      return if completed then Deleted else PartialFailure;
    }
  }

  /** Through any crashes, partial failures and retries, with no sync in between, no
      flag ever reverts and the row disappears only when every copy it named is gone
      and the tombstone says so. */
  lemma {:induction false} DeletionIsSafe(d: Disk, runs: seq<Run>)
    requires d.row.Some? && Truthful(d, d.row.value)
    ensures Good(d.row.value, RunAll(d, runs))
    decreases runs
  {
    if runs != [] {
      var states := Attempt(d, runs[0].request, runs[0].outcomes);
      AttemptIsGood(d, runs[0].request, runs[0].outcomes);
      var d' := Interrupted(d, runs[0]);
      assert Good(d.row.value, d');
      if d'.row.Some? {
        DeletionIsSafe(d', runs[1..]);
      } else {
        NothingLeftToDo(d', runs[1..]);
      }
    }
  }

  lemma {:induction false} NothingLeftToDo(d: Disk, runs: seq<Run>)
    requires d.row.None?
    ensures RunAll(d, runs) == d
    decreases runs
  {
    if runs != [] {
      NothingLeftToDo(d, runs[1..]);
    }
  }

  // --- Between any two durable states ---

  /** What the run leaves durable, state by state, up to its crash or its end. */
  function Passed(d: Disk, run: Run): seq<Disk> {
    var states := Attempt(d, run.request, run.outcomes);
    if run.survives < |states| then states[..run.survives] else states
  }

  /** Every durable state of all runs, in order. */
  function Trace(d: Disk, runs: seq<Run>): seq<Disk>
    decreases runs
  {
    if runs == [] then [] else Passed(d, runs[0]) + Trace(Interrupted(d, runs[0]), runs[1..])
  }

  /** The later state has the same recording with every flag kept, or no row any more. */
  predicate Precedes(a: Disk, b: Disk) {
    b.row.Some? ==> a.row.Some? && SameRecording(a.row.value, b.row.value) && KeepsFlags(a.row.value, b.row.value)
  }

  predicate Chain(d: Disk, states: seq<Disk>)
    decreases states
  {
    states == [] || (Precedes(d, states[0]) && Chain(states[0], states[1..]))
  }

  lemma {:induction false} ChainAppend(d: Disk, a: seq<Disk>, b: seq<Disk>)
    requires Chain(d, a) && Chain(Last(d, a), b)
    ensures Chain(d, a + b)
    decreases a
  {
    if a == [] {
      assert a + b == b;
    } else {
      assert (a + b)[1..] == a[1..] + b;
      ChainAppend(a[0], a[1..], b);
    }
  }

  lemma {:induction false} ChainPrefix(d: Disk, states: seq<Disk>, n: nat)
    requires Chain(d, states) && n <= |states|
    ensures Chain(d, states[..n])
    decreases states
  {
    if n > 0 {
      assert states[..n][1..] == states[1..][..n - 1];
      ChainPrefix(states[0], states[1..], n - 1);
    }
  }

  lemma {:induction false} ChainOrders(d: Disk, states: seq<Disk>, j: nat)
    requires Chain(d, states) && j < |states|
    ensures Precedes(d, states[j])
    ensures forall i :: 0 <= i < j ==> Precedes(states[i], states[j])
    decreases states
  {
    if j > 0 {
      ChainOrders(states[0], states[1..], j - 1);
      forall i | 0 <= i < j ensures Precedes(states[i], states[j]) {
        assert i > 0 ==> states[i] == states[1..][i - 1];
      }
    }
  }

  /** The document in memory extends the durable one. */
  predicate Extends(d: Disk, memory: Metadata) {
    d.row.Some? && SameRecording(d.row.value, memory) && KeepsFlags(d.row.value, memory)
  }

  lemma LocalChains(d: Disk, m: Metadata, o: Outcomes)
    requires Extends(d, m)
    ensures var p := DeleteLocal(d, m, o); Chain(d, p.states) && Extends(Last(d, p.states), p.memory)
  {
  }

  lemma RemoteChains(d: Disk, m: Metadata, o: Outcomes)
    requires Extends(d, m)
    ensures var p := DeleteRemote(d, m, o); Chain(d, p.states) && Extends(Last(d, p.states), p.memory)
  {
  }

  lemma ConclusionChains(d: Disk, m: Metadata, failed: bool)
    requires Extends(d, m)
    ensures Chain(d, Conclude(d, m, failed))
  {
  }

  lemma RemovalChains(d: Disk, m: Metadata, o: Outcomes)
    requires Extends(d, m)
    ensures Chain(d, Removal(d, m, o))
  {
    hide DeleteLocal, DeleteRemote, Conclude, Extends, Chain;
    var local := DeleteLocal(d, m, o);
    var afterLocal := Last(d, local.states);
    LocalChains(d, m, o);
    var remote := DeleteRemote(afterLocal, local.memory, o);
    var afterRemote := Last(afterLocal, remote.states);
    RemoteChains(afterLocal, local.memory, o);
    var verdict := Conclude(afterRemote, remote.memory, local.failed || remote.failed);
    ConclusionChains(afterRemote, remote.memory, local.failed || remote.failed);
    ChainAppend(afterLocal, remote.states, verdict);
    ChainAppend(d, local.states, remote.states + verdict);
    assert Removal(d, m, o) == local.states + (remote.states + verdict);
  }

  lemma LockingChains(d: Disk, r: Request)
    requires d.row.Some?
    ensures var requested := LockedRow(d, r).(tombstone := Requested);
      Chain(d, [LockedRow(d, r), requested]) && Extends(requested, requested.row.value)
  {
  }

  lemma AttemptChains(d: Disk, r: Request, o: Outcomes)
    ensures Chain(d, Attempt(d, r, o))
  {
    hide Removal, Extends, Chain, Admitted;
    if d.row.Some? && Admitted(d.row.value, r) {
      var locked := LockedRow(d, r);
      var requested := locked.(tombstone := Requested);
      LockingChains(d, r);
      RemovalChains(requested, locked.row.value, o);
      ChainAppend(d, [locked, requested], Removal(requested, locked.row.value, o));
    } else {
      EmptyChain(d);
    }
  }

  lemma EmptyChain(d: Disk)
    ensures Chain(d, [])
  {
  }

  lemma {:induction false} TraceChains(d: Disk, runs: seq<Run>)
    ensures Chain(d, Trace(d, runs))
    decreases runs
  {
    hide Attempt, Chain;
    if runs == [] {
      EmptyChain(d);
    } else {
      var states := Attempt(d, runs[0].request, runs[0].outcomes);
      AttemptChains(d, runs[0].request, runs[0].outcomes);
      if runs[0].survives < |states| {
        ChainPrefix(d, states, runs[0].survives);
      }
      TraceChains(Interrupted(d, runs[0]), runs[1..]);
      ChainAppend(d, Passed(d, runs[0]), Trace(Interrupted(d, runs[0]), runs[1..]));
    }
  }

  /** Between any two durable states of any crashes and retries, no flag reverts, the
      recording stays the same and a removed row does not come back. */
  lemma FlagsNeverRevert(d: Disk, runs: seq<Run>, i: nat, j: nat)
    requires i < j < |Trace(d, runs)|
    ensures Precedes(d, Trace(d, runs)[i]) && Precedes(Trace(d, runs)[i], Trace(d, runs)[j])
  {
    TraceChains(d, runs);
    ChainOrders(d, Trace(d, runs), i);
    ChainOrders(d, Trace(d, runs), j);
  }

  predicate Cooperative(o: Outcomes) {
    && o.insideCompleted && o.rmRemoves && o.localWriteOk
    && o.destinationAllowed && o.sshRemoves && o.sshReports && o.remoteWriteOk
  }

  lemma CooperativeAttemptCompletes(d: Disk, r: Request, o: Outcomes)
    requires MayDelete(d.row, r) && Truthful(d, d.row.value) && Cooperative(o)
    ensures Last(d, Attempt(d, r, o)).row.None?
  {
    AttemptIsCareful(d, r, o);
    hide Attempt;
  }

  /** After any number of crashed and failed attempts, one permitted attempt in a
      cooperative environment removes the row. */
  lemma RetryCompletes(d: Disk, runs: seq<Run>, r: Request, o: Outcomes)
    requires d.row.Some? && Truthful(d, d.row.value)
    requires MayDelete(RunAll(d, runs).row, r) && Cooperative(o)
    ensures Last(RunAll(d, runs), Attempt(RunAll(d, runs), r, o)).row.None?
  {
    DeletionIsSafe(d, runs);
    CooperativeAttemptCompletes(RunAll(d, runs), r, o);
  }

  // --- A sync between two attempts ---

  /** A verified sync of a recording whose local copy is still there. */
  function Synced(d: Disk): Disk
    requires d.row.Some? && d.localFile
  {
    d.(row := Some(d.row.value.(sync := d.row.value.sync.(synced := true, verified := true, state := "complete"))), remoteFile := true)
  }

  /** A removal that completes leaves no remote copy exactly when there was none, or
      when the document still asked for one to be removed. */
  lemma RemovalLeavesNoRemoteIff(d: Disk, m: Metadata, o: Outcomes)
    requires Last(d, Removal(d, m, o)).row.None?
    requires d.row.Some?
    ensures !Last(d, Removal(d, m, o)).remoteFile <==>
      !d.remoteFile || (RemoteRequired(m) && !Flags(m).remoteVerified)
  {
    var local := DeleteLocal(d, m, o);
    var afterLocal := Last(d, local.states);
    assert afterLocal.remoteFile == d.remoteFile && Flags(local.memory).remoteVerified == Flags(m).remoteVerified;
    assert RemoteRequired(local.memory) == RemoteRequired(m);
    var remote := DeleteRemote(afterLocal, local.memory, o);
    var afterRemote := Last(afterLocal, remote.states);
    assert !remote.failed && Flags(remote.memory).remoteVerified;
    assert Last(d, Removal(d, m, o)).remoteFile == afterRemote.remoteFile;
  }

  lemma RemovedRowLeavesNoRemoteIff(d: Disk, r: Request, o: Outcomes)
    requires d.row.Some?
    requires Last(d, Attempt(d, r, o)).row.None?
    ensures !Last(d, Attempt(d, r, o)).remoteFile <==>
      !d.remoteFile || (RemoteRequired(d.row.value) && !Flags(d.row.value).remoteVerified)
  {
    var locked := LockedRow(d, r);
    var requested := locked.(tombstone := Requested);
    assert Last(d, Attempt(d, r, o)) == Last(requested, Removal(requested, locked.row.value, o));
    RemovalLeavesNoRemoteIff(requested, locked.row.value, o);
  }

  /** A document whose remote flag was set while no copy was required: after a sync the
      next attempt completes and leaves the new remote copy behind. */
  lemma SyncBetweenAttemptsLeavesCopy(m: Metadata, r: Request, o1: Outcomes, o2: Outcomes)
    requires m.media.filePath != "" && m.deletion.None? && !RemoteRequired(m)
    requires MayDelete(Some(m), r) && !o1.rmRemoves && Cooperative(o2)
    ensures var first := Last(Disk(Some(m), true, false, NoTombstone), Attempt(Disk(Some(m), true, false, NoTombstone), r, o1));
      && first.row.Some? && first.localFile
      && var final := Last(Synced(first), Attempt(Synced(first), r, o2));
      && final.row.None? && final.remoteFile
  {
  }
}
