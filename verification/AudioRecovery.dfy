/**
 Ownership sessions, revision issuing and recovery after an owner is lost
 (server/lib/audio-owner-recovery.js, server/lib/audio-ownership.js).
 */
module AudioRecovery {
  import opened Wrappers
  import opened Text
  import opened AudioPolicy
  import opened AudioElection
  import opened AudioFence
  import GuardedWrites

  // --- Ownership sessions ---

  /** sameOwnershipSession, on two policies that exist. */
  predicate SameSession(left: Policy, right: Policy) {
    if left.sourceKey != "" || right.sourceKey != ""
    then left.sourceKey == right.sourceKey && left.content == right.content
    else left.transaction == right.transaction
  }

  lemma SameSessionIsEquivalence(p: Policy, q: Policy, r: Policy)
    ensures SameSession(p, p)
    ensures SameSession(p, q) ==> SameSession(q, p)
    ensures SameSession(p, q) && SameSession(q, r) ==> SameSession(p, r)
  {
  }

  /** What identifies a session: the source and its content, or without a source the transaction. */
  datatype SessionKey = OfSource(source: string, content: string) | OfTransaction(transaction: string)

  function KeyOf(p: Policy): SessionKey {
    if p.sourceKey != "" then OfSource(p.sourceKey, p.content) else OfTransaction(p.transaction)
  }

  lemma SameSessionIff(p: Policy, q: Policy)
    ensures SameSession(p, q) <==> KeyOf(p) == KeyOf(q)
  {
  }

  // --- Revisions ---

  const TWO_53: int := MAX_SAFE_INTEGER + 1

  /** `x + 1` on doubles up to 2^53, where it stops growing. */
  function PlusOne(x: int): int
    requires x <= TWO_53
  {
    if x < TWO_53 then x + 1 else x
  }

  function NextRevision(last: int, wallClock: int, persisted: Option<int>): (r: int)
    requires 0 <= last <= TWO_53 && wallClock <= TWO_53
    ensures 0 <= r <= TWO_53
  {
    var stored := if PositiveSafeInteger(persisted).Some? then persisted.value else 0;
    var candidate := if wallClock > PlusOne(last) then wallClock else PlusOne(last);
    if candidate > PlusOne(stored) then candidate else PlusOne(stored)
  }

  datatype Issue = Issue(wallClock: int, persisted: Option<int>)

  /** The revisions of successive calls in one process. */
  function IssueAll(last: int, calls: seq<Issue>): (rs: seq<int>)
    requires 0 <= last <= TWO_53 && forall c :: c in calls ==> c.wallClock <= TWO_53
    ensures |rs| == |calls|
    decreases calls
  {
    if calls == [] then []
    else
      var r := NextRevision(last, calls[0].wallClock, calls[0].persisted);
      [r] + IssueAll(r, calls[1..])
  }

  lemma {:induction false} IssueOneMore(last: int, calls: seq<Issue>, call: Issue)
    requires 0 <= last <= TWO_53 && forall c :: c in calls + [call] ==> c.wallClock <= TWO_53
    ensures forall c :: c in calls ==> c in calls + [call]
    ensures var before := IssueAll(last, calls);
      var latest := if calls == [] then last else before[|calls| - 1];
      && 0 <= latest <= TWO_53
      && IssueAll(last, calls + [call]) == before + [NextRevision(latest, call.wallClock, call.persisted)]
    decreases calls
  {
    assert forall c :: c in calls ==> c in calls + [call];
    if calls == [] {
      assert calls + [call] == [call];
      assert call in [call];
    } else {
      assert calls[0] in calls;
      var r := NextRevision(last, calls[0].wallClock, calls[0].persisted);
      assert (calls + [call])[1..] == calls[1..] + [call];
      IssueOneMore(r, calls[1..], call);
    }
  }

  /** The process-wide counter behind nextAudioPolicyRevision. `calls` and `issued` are its
      history: what each call was given and what it issued. */
  class RevisionIssuer {
    var lastIssued: int
    ghost var calls: seq<Issue>
    ghost var issued: seq<int>

    ghost predicate Valid()
      reads this
    {
      && (forall c :: c in calls ==> c.wallClock <= TWO_53)
      && issued == IssueAll(0, calls)
      && lastIssued == (if calls == [] then 0 else issued[|issued| - 1])
      && 0 <= lastIssued <= TWO_53
    }

    constructor ()
      ensures Valid() && calls == [] && issued == []
    {
      lastIssued, calls, issued := 0, [], [];
    }

    method Next(wallClock: int, persisted: Option<int>) returns (revision: int)
      requires Valid() && wallClock <= TWO_53
      modifies this
      ensures Valid() && calls == old(calls) + [Issue(wallClock, persisted)] && issued == old(issued) + [revision]
      ensures lastIssued == revision && wallClock <= revision && 0 < revision <= TWO_53
      ensures revision > old(lastIssued) <==> old(lastIssued) < TWO_53
      ensures PositiveSafeInteger(persisted).Some? ==> revision > persisted.value
    {
      IssueOneMore(0, calls, Issue(wallClock, persisted));
      revision := wallClock;
      if PlusOne(lastIssued) > revision {
        revision := PlusOne(lastIssued);
      }
      var stored := if PositiveSafeInteger(persisted).Some? then persisted.value else 0;
      if PlusOne(stored) > revision {
        revision := PlusOne(stored);
      }
      lastIssued := revision;
      calls, issued := calls + [Issue(wallClock, persisted)], issued + [revision];
    }
  }

  lemma {:induction false} IssuedAbove(last: int, calls: seq<Issue>, j: nat)
    requires 0 <= last <= TWO_53 && forall c :: c in calls ==> c.wallClock <= TWO_53
    requires j < |calls|
    ensures last <= IssueAll(last, calls)[j] <= TWO_53
    ensures last < IssueAll(last, calls)[j] <==> last < TWO_53
    ensures PositiveSafeInteger(calls[j].persisted).Some? ==> IssueAll(last, calls)[j] > calls[j].persisted.value
    decreases calls
  {
    var r := NextRevision(last, calls[0].wallClock, calls[0].persisted);
    if j > 0 {
      IssuedAbove(r, calls[1..], j - 1);
    }
  }

  /** Every issued revision exceeds the persisted one it was given. A later revision
      exceeds an earlier one exactly when the earlier one was still below 2^53. */
  lemma {:induction false} RevisionsIncrease(last: int, calls: seq<Issue>, i: nat, j: nat)
    requires 0 <= last <= TWO_53 && forall c :: c in calls ==> c.wallClock <= TWO_53
    requires i < j < |calls|
    ensures var rs := IssueAll(last, calls);
      && (rs[i] < rs[j] <==> rs[i] < TWO_53)
      && (PositiveSafeInteger(calls[j].persisted).Some? ==> rs[j] > calls[j].persisted.value)
    decreases calls
  {
    var r := NextRevision(last, calls[0].wallClock, calls[0].persisted);
    if i == 0 {
      IssuedAbove(r, calls[1..], j - 1);
    } else {
      RevisionsIncrease(r, calls[1..], i - 1, j - 1);
    }
  }

  /** An issued revision is one a policy can carry exactly when none of its three
      sources had reached the last safe integer. */
  lemma IssuedIsUsableIff(last: int, wallClock: int, persisted: Option<int>)
    requires 0 <= last <= TWO_53 && wallClock <= TWO_53
    ensures PositiveSafeInteger(Some(NextRevision(last, wallClock, persisted))).Some?
      <==> last < MAX_SAFE_INTEGER && wallClock <= MAX_SAFE_INTEGER && persisted != Some(MAX_SAFE_INTEGER)
  {
  }

  // --- Devices and the playlists they follow ---

  datatype Device = Device(id: string, playlist: string)

  /** storedAudioPolicyForDevice. */
  function StoredPolicy(playlists: map<string, Playlist>, device: Device): Option<Policy> {
    if device.playlist in playlists then CommonPolicy(playlists[device.playlist]) else None
  }

  predicate Participates(playlists: map<string, Playlist>, device: Device, anchor: Policy) {
    && StoredPolicy(playlists, device).Some?
    && SameSession(StoredPolicy(playlists, device).value, anchor)
  }

  function PlaylistIds(devices: seq<Device>): set<string> {
    set d | d in devices && d.playlist != "" :: d.playlist
  }

  function Writer(request: StampRequest): Playlist -> Playlist {
    items => Apply(items, request)
  }

  function Acceptor(request: StampRequest): Playlist -> bool {
    items => Stamp(items, request.policy, request.contentInstanceId).Some?
  }

  function StampMany(playlists: map<string, Playlist>, ids: set<string>, request: StampRequest): map<string, Playlist> {
    GuardedWrites.WriteMany(playlists, ids, Writer(request))
  }

  function Accepting(playlists: map<string, Playlist>, ids: set<string>, request: StampRequest): set<string> {
    GuardedWrites.Accepting(playlists, ids, Acceptor(request))
  }

  lemma MaxOfNone()
    ensures MaxStored([]) == 0
  {
  }

  lemma MaxOneMore(items: Playlist, i: nat)
    requires i < |items|
    ensures var m, revision := MaxStored(items[..i]), StoredRevision(items[i]);
      MaxStored(items[..i + 1]) == if revision.Some? && revision.value > m then revision.value else m
  {
    hide StoredRevision;
    assert items[..i + 1][..i] == items[..i];
  }

  /** The playlists table: the published items of each playlist. */
  class PolicyStore {
    var playlists: map<string, Playlist>

    constructor (playlists: map<string, Playlist>)
      ensures this.playlists == playlists
    {
      this.playlists := playlists;
    }

    /** maxPersistedAudioPolicyRevision. */
    method MaxPersistedRevision() returns (maximum: int)
      ensures forall p :: p in playlists ==> MaxStored(playlists[p]) <= maximum
      ensures maximum > 0 ==> exists p :: p in playlists && MaxStored(playlists[p]) == maximum
      ensures maximum >= 0
    {
      hide StoredRevision, MaxStored;
      maximum := 0;
      var rows := playlists.Keys;
      while rows != {}
        invariant rows <= playlists.Keys
        invariant maximum >= 0
        invariant forall p :: p in playlists && p !in rows ==> MaxStored(playlists[p]) <= maximum
        invariant maximum > 0 ==> exists p :: p in playlists && MaxStored(playlists[p]) == maximum
        decreases rows
      {
        var row :| row in rows;
        var items := playlists[row];
        var highest := 0;
        var i := 0;
        MaxOfNone();
        while i < |items|
          invariant 0 <= i <= |items|
          invariant highest == MaxStored(items[..i])
        {
          var revision := StoredRevision(items[i]);
          MaxOneMore(items, i);
          if revision.Some? && revision.value > highest {
            highest := revision.value;
          }
          i := i + 1;
        }
        assert items[..i] == items;
        if highest > maximum {
          maximum := highest;
        }
        rows := rows - {row};
      }
    }

    method StampPlaylist(id: string, request: StampRequest) returns (ok: bool)
      modifies this
      ensures ok <==> Accepting(old(playlists), {id}, request) == {id}
      ensures playlists == StampMany(old(playlists), {id}, request)
    {
      hide Stamp;
      ok := false;
      if id in playlists {
        var stamped := Stamp(playlists[id], request.policy, request.contentInstanceId);
        if stamped.Some? {
          playlists := playlists[id := stamped.value];
          ok := true;
        }
      }
    }

    /** The stamping loop of a recovery: each participant playlist once. */
    method StampParticipants(participants: seq<Device>, request: StampRequest) returns (stamped: set<string>)
      modifies this
      ensures playlists == StampMany(old(playlists), PlaylistIds(participants), request)
      ensures stamped == Accepting(old(playlists), PlaylistIds(participants), request)
    {
      stamped := {};
      ghost var before := playlists;
      for i := 0 to |participants|
        invariant playlists == StampMany(before, PlaylistIds(participants[..i]), request)
        invariant stamped == Accepting(before, PlaylistIds(participants[..i]), request)
      {
        var id := participants[i].playlist;
        PlaylistIdsStep(participants, i);
        GuardedWrites.WriteManyStep(before, PlaylistIds(participants[..i]), id, Writer(request), Acceptor(request));
        if id != "" && id !in stamped {
          var ok := StampPlaylist(id, request);
          if ok {
            stamped := stamped + {id};
          }
        }
      }
      assert participants[..|participants|] == participants;
    }
  }

  lemma PlaylistIdsStep(devices: seq<Device>, i: nat)
    requires i < |devices|
    ensures PlaylistIds(devices[..i + 1]) ==
      PlaylistIds(devices[..i]) + (if devices[i].playlist == "" then {} else {devices[i].playlist})
  {
    assert devices[..i + 1] == devices[..i] + [devices[i]];
  }

  // --- Recovery ---

  /** The policy a recovery proposes to its participants. */
  function Proposal(lost: Policy, replacement: Option<string>, transaction: string, revision: int): Policy {
    Normalize(Policy(1, lost.output, if replacement.Some? then replacement.value else "", lost.content,
                     transaction, lost.generation, Some(revision), lost.sourceKey))
  }

  /** The replacement: elected among the connected participants other than the lost one. */
  function Replacement(connected: seq<string>, lostId: string, preferred: string, ordered: seq<string>): Option<string> {
    var eligible := Filter(connected, set d | d in connected && (lostId == "" || d != lostId));
    Elect(eligible, preferred, ordered, Some(eligible))
  }

  /** What a recovery commits: the fence's verdict, or no owner when nobody is connected. */
  function Committed(connected: seq<string>, proposed: Policy, rooms: map<string, nat>, replies: map<string, Reply>): Policy {
    if connected == [] then proposed.(owner := "")
    else FenceTargets(connected, proposed, rooms, replies).committed
  }

  function Members(ids: seq<string>): set<string> {
    set d | d in ids
  }

  /** The ids that may take over: connected, not the lost one, trimmed and not empty. */
  function EligibleIds(connected: set<string>, lostId: string): set<string> {
    set d | d in connected && (lostId == "" || d != lostId) && Trim(d) != "" :: Trim(d)
  }

  /** There is a replacement exactly when someone is eligible: the preferred device, else
      the first in the configured order, else the least id. */
  lemma ReplacementMeaning(connected: seq<string>, lostId: string, preferred: string, ordered: seq<string>)
    ensures var eligible := EligibleIds(Members(connected), lostId);
      var replacement := Replacement(connected, lostId, preferred, ordered);
      && (replacement.None? <==> eligible == {})
      && (replacement.Some? ==> Elected(eligible, preferred, ordered, replacement.value))
  {
    hide Elect, Elected, Trim;
    var kept := Filter(connected, set d | d in connected && (lostId == "" || d != lostId));
    assert IdSet(kept) == EligibleIds(Members(connected), lostId);
    assert Electable(kept, Some(kept)) == IdSet(kept);
    ElectionMeaning(kept, preferred, ordered, Some(kept));
  }

  lemma ReplacementIsAnother(connected: seq<string>, lostId: string, preferred: string, ordered: seq<string>)
    requires forall d :: d in connected ==> Trimmed(d)
    ensures var replacement := Replacement(connected, lostId, preferred, ordered);
      && (replacement.Some? <==> exists d :: d in connected && d != "" && (lostId != "" ==> d != lostId))
      && (replacement.Some? ==> replacement.value in connected && replacement.value != "" && (lostId != "" ==> replacement.value != lostId))
  {
    hide Replacement, FirstOrdered;
    ReplacementMeaning(connected, lostId, preferred, ordered);
    var eligible := EligibleIds(Members(connected), lostId);
    forall d | d in connected ensures Trim(d) == d {
    }
    hide Trim;
    forall d ensures d in eligible <==> d in connected && d != "" && (lostId != "" ==> d != lostId) {
    }
  }

  lemma CommittedOwner(connected: seq<string>, proposed: Policy, rooms: map<string, nat>, replies: map<string, Reply>)
    requires Normalized(proposed)
    ensures Committed(connected, proposed, rooms, replies) in {proposed, proposed.(owner := "")}
  {
    if connected != [] && !FenceTargets(connected, proposed, rooms, replies).ok {
      FailedFenceGrantsNothing(connected, proposed, rooms, replies, "");
    }
  }

  /** A recovery whose stamps all succeed moves its whole session, and nothing else,
      to the committed policy. Without a source key this needs a fresh transaction id. */
  lemma RecoveryMovesOneSession(playlists: map<string, Playlist>, devices: seq<Device>, participants: seq<Device>,
                                anchor: Policy, request: StampRequest)
    requires WellFormed(request) && Normalized(request.policy)
    requires request.policy.sourceKey == anchor.sourceKey && request.policy.content == anchor.content
    requires forall d :: d in participants <==> d in devices && Participates(playlists, d, anchor)
    requires "" !in playlists
    requires Accepting(playlists, PlaylistIds(participants), request) == PlaylistIds(participants)
    requires anchor.sourceKey == "" ==>
      forall p :: p in playlists && CommonPolicy(playlists[p]).Some? ==>
        CommonPolicy(playlists[p]).value.transaction != request.policy.transaction
    ensures var after := StampMany(playlists, PlaylistIds(participants), request);
      && (forall d :: d in devices ==> (Participates(after, d, request.policy) <==> d in participants))
      && (forall d :: d in participants ==> StoredPolicy(after, d) == Some(request.policy))
      && (forall d :: d in devices && d !in participants ==> StoredPolicy(after, d) == StoredPolicy(playlists, d))
  {
    var after := StampMany(playlists, PlaylistIds(participants), request);
    forall d | d in devices
      ensures d in participants ==> StoredPolicy(after, d) == Some(request.policy)
      ensures d !in participants ==> StoredPolicy(after, d) == StoredPolicy(playlists, d)
    {
      if d in participants {
        var items := playlists[d.playlist];
        ApplyIsWrite(items, request);
        assert d.playlist in Accepting(playlists, PlaylistIds(participants), request);
        AcceptedReadsBack(items, request);
      } else {
        assert forall e :: e in participants && e.playlist == d.playlist ==> StoredPolicy(playlists, e) == StoredPolicy(playlists, d);
        assert d.playlist !in PlaylistIds(participants);
      }
    }
  }

  lemma AcceptedReadsBack(items: Playlist, request: StampRequest)
    requires WellFormed(request) && Normalized(request.policy)
    requires Stamp(items, request.policy, request.contentInstanceId).Some?
    ensures CommonPolicy(Apply(items, request)) == Some(request.policy)
  {
    assert request.policy.(content := request.policy.content) == request.policy;
    ReadBackIff(items, request);
  }

  // --- One recovery ---

  function ParticipantsOf(playlists: map<string, Playlist>, devices: seq<Device>, anchor: Policy): (r: seq<Device>)
    ensures forall d :: d in r <==> d in devices && Participates(playlists, d, anchor)
  {
    if devices == [] then []
    else (if Participates(playlists, devices[0], anchor) then [devices[0]] else []) + ParticipantsOf(playlists, devices[1..], anchor)
  }

  function ConnectedIds(devices: seq<Device>, rooms: map<string, nat>): (r: seq<string>)
    ensures forall id :: id in r <==> Online(rooms, id) && exists d :: d in devices && d.id == id
  {
    if devices == [] then []
    else
      assert devices == [devices[0]] + devices[1..];
      (if Online(rooms, devices[0].id) then [devices[0].id] else []) + ConnectedIds(devices[1..], rooms)
  }

  /** Who asks for a recovery: the lost device, or on reconnect an anchor of the session. */
  datatype Loss = Loss(lostId: string, anchor: Device, allowUnowned: bool)

  /** What the network and the clock contribute. `interim` is the playlists table as the
      await on the fence leaves it, which other recoveries may have changed. */
  datatype Surroundings = Surroundings(
    wallClock: int, transaction: string, ordered: seq<string>, rooms: map<string, nat>,
    replies: map<string, Reply>, interim: map<string, Playlist>)

  datatype Recovery =
    | NotOwner
    | Finished(recovered: bool, lost: Policy, participants: seq<Device>, committed: Policy, stamped: set<string>)

  predicate IsLoss(playlists: map<string, Playlist>, loss: Loss) {
    && StoredPolicy(playlists, loss.anchor).Some?
    && (loss.allowUnowned || StoredPolicy(playlists, loss.anchor).value.owner == loss.lostId)
  }

  /** The ids of the participants that are connected. */
  function Connected(participants: seq<Device>, rooms: map<string, nat>): set<string> {
    set d | d in participants && Online(rooms, d.id) :: d.id
  }

  /** Every session of every connected participant has proved that it is muted for this policy. */
  ghost predicate AllMuted(connected: set<string>, policy: Policy, world: Surroundings) {
    forall d :: d in connected && Trim(d) != "" ==> MutedInRoom(Trim(d), policy, world.rooms, world.replies)
  }

  /** What is decided up to the await. The policy is the lost one under a new transaction and
      a revision that exceeds every stored one; it has an owner exactly when someone is eligible
      and everyone connected is proved muted, and then the owner is the one elected. */
  ghost predicate Decided(before: map<string, Playlist>, devices: seq<Device>, loss: Loss, world: Surroundings, revision: int, r: Recovery)
    requires r.Finished?
  {
    var connected := Connected(r.participants, world.rooms);
    var eligible := EligibleIds(connected, loss.lostId);
    && StoredPolicy(before, loss.anchor) == Some(r.lost)
    && (forall d :: d in r.participants <==>
          d in devices && StoredPolicy(before, d).Some? && SameSession(StoredPolicy(before, d).value, r.lost))
    && (forall p :: p in before ==> revision > MaxStored(before[p]))
    && CarriesSession(r.lost, world.transaction, revision, r.committed)
    && (r.recovered <==> eligible != {} && AllMuted(connected, r.committed, world))
    && (if r.recovered then Elected(eligible, r.lost.output, world.ordered, r.committed.owner) else r.committed.owner == "")
  }

  /** The committed policy but for its owner. */
  ghost predicate CarriesSession(lost: Policy, transaction: string, revision: int, committed: Policy) {
    && committed.version == 1 && committed.output == lost.output && committed.content == lost.content
    && committed.sourceKey == lost.sourceKey && committed.generation == lost.generation
    && committed.transaction == Trim(transaction)
    && committed.revision == if 0 < revision <= MAX_SAFE_INTEGER then Some(revision) else None
  }

  lemma CommittedCarriesSession(lost: Policy, replacement: Option<string>, transaction: string, revision: int,
                                connected: seq<string>, rooms: map<string, nat>, replies: map<string, Reply>)
    requires Normalized(lost)
    ensures var committed := Committed(connected, Proposal(lost, replacement, transaction, revision), rooms, replies);
      CarriesSession(lost, transaction, revision, committed) && Normalized(committed)
  {
    hide FenceTargets, Committed, Trim;
    CommittedOwner(connected, Proposal(lost, replacement, transaction, revision), rooms, replies);
  }

  /** Whether the proposal is committed with its owner. */
  lemma ProposalIsGrantedIff(connected: seq<string>, proposed: Policy, world: Surroundings)
    requires Normalized(proposed)
    ensures var committed := Committed(connected, proposed, world.rooms, world.replies);
      var ok := FenceTargets(connected, proposed, world.rooms, world.replies).ok;
      && (ok <==> IdSet(connected) != {} && AllMuted(Members(connected), committed, world))
      && (committed == if ok then proposed else proposed.(owner := ""))
  {
    var committed := Committed(connected, proposed, world.rooms, world.replies);
    CommittedOwner(connected, proposed, world.rooms, world.replies);
    FenceCommitsIff(connected, proposed, world.rooms, world.replies);
    SameEpochSameMutes(connected, proposed, committed, world);
    if connected != [] && !FenceTargets(connected, proposed, world.rooms, world.replies).ok {
      FailedFenceGrantsNothing(connected, proposed, world.rooms, world.replies, "");
    }
  }

  /** Being muted for a policy does not depend on its owner. */
  lemma SameEpochSameMutes(connected: seq<string>, p: Policy, q: Policy, world: Surroundings)
    requires q in {p, p.(owner := "")}
    ensures AllMuted(Members(connected), q, world) <==>
      forall d :: d in IdSet(connected) ==> MutedInRoom(d, p, world.rooms, world.replies)
  {
    hide EverySessionMuted, Trim;
    assert p.(owner := "") == q.(owner := "");
    assert MutedPolicy(p) == MutedPolicy(q);
    forall d | d in connected && Trim(d) != "" ensures Trim(d) in IdSet(connected) {
    }
  }

  /** The decision, from the proposal and the fence. */
  lemma RecoveryDecides(participants: seq<Device>, loss: Loss, lost: Policy, world: Surroundings, revision: int)
    requires Normalized(lost)
    ensures var ids := ConnectedIds(participants, world.rooms);
      var proposed := Proposal(lost, Replacement(ids, loss.lostId, lost.output, world.ordered), world.transaction, revision);
      var committed := Committed(ids, proposed, world.rooms, world.replies);
      var recovered := FenceTargets(ids, proposed, world.rooms, world.replies).ok && committed.owner != "";
      var connected := Connected(participants, world.rooms);
      var eligible := EligibleIds(connected, loss.lostId);
      && CarriesSession(lost, world.transaction, revision, committed)
      && (recovered <==> eligible != {} && AllMuted(connected, committed, world))
      && (if recovered then Elected(eligible, lost.output, world.ordered, committed.owner) else committed.owner == "")
  {
    hide FenceTargets, Committed, Replacement, AllMuted, FirstOrdered;
    var ids := ConnectedIds(participants, world.rooms);
    var replacement := Replacement(ids, loss.lostId, lost.output, world.ordered);
    var proposed := Proposal(lost, replacement, world.transaction, revision);
    assert Members(ids) == Connected(participants, world.rooms);
    ReplacementMeaning(ids, loss.lostId, lost.output, world.ordered);
    CommittedCarriesSession(lost, replacement, world.transaction, revision, ids, world.rooms, world.replies);
    ProposalIsGrantedIff(ids, proposed, world);
    assert proposed.owner == if replacement.Some? then Trim(replacement.value) else "";
    var eligible := EligibleIds(Connected(participants, world.rooms), loss.lostId);
    forall d | d in eligible ensures d in IdSet(ids) && Trim(d) == d && d != "" {
    }
  }

  /** What is stamped after it, on the playlists that the await left. */
  ghost predicate Stamped(interim: map<string, Playlist>, r: Recovery, after: map<string, Playlist>)
    requires r.Finished?
  {
    var request := StampRequest(r.committed, r.committed.content);
    && after == StampMany(interim, PlaylistIds(r.participants), request)
    && r.stamped == Accepting(interim, PlaylistIds(r.participants), request)
  }

  method FenceProposal(connected: seq<string>, proposed: Policy, world: Surroundings) returns (fenced: bool, committed: Policy)
    ensures committed == Committed(connected, proposed, world.rooms, world.replies)
    ensures fenced <==> FenceTargets(connected, proposed, world.rooms, world.replies).ok
  {
    if connected == [] {
      fenced, committed := false, proposed.(owner := "");
    } else {
      hide FenceTargets;
      var fence := FenceTargets(connected, proposed, world.rooms, world.replies);
      fenced, committed := fence.ok, fence.committed;
    }
  }

  /** recoverAudioOwnershipAfterLoss. */
  method Recover(store: PolicyStore, issuer: RevisionIssuer, devices: seq<Device>, loss: Loss, world: Surroundings)
    returns (r: Recovery)
    requires issuer.Valid() && world.wallClock <= TWO_53
    modifies store, issuer
    ensures issuer.Valid()
    ensures r.NotOwner? <==> !IsLoss(old(store.playlists), loss)
    ensures r.NotOwner? ==> store.playlists == old(store.playlists) && issuer.issued == old(issuer.issued)
    ensures r.Finished? ==> issuer.issued == old(issuer.issued) + [issuer.lastIssued]
    ensures r.Finished? ==> Decided(old(store.playlists), devices, loss, world, issuer.lastIssued, r)
    ensures r.Finished? ==> Stamped(world.interim, r, store.playlists)
  {
    hide Stamp, CommonPolicy, MaxStored, FenceTargets, Replacement, Normalize, Committed, Proposal, IssueAll, StampMany, Accepting,
         AllMuted, Elected, EligibleIds, CarriesSession;
    var persisted := store.MaxPersistedRevision();
    var stored := StoredPolicy(store.playlists, loss.anchor);
    if stored.None? || (!loss.allowUnowned && stored.value.owner != loss.lostId) {
      return NotOwner;
    }
    var lost := stored.value;
    var participants := ParticipantsOf(store.playlists, devices, lost);
    var connected := ConnectedIds(participants, world.rooms);
    var replacement := Replacement(connected, loss.lostId, lost.output, world.ordered);
    var revision := issuer.Next(world.wallClock, Some(persisted));
    var proposed := Proposal(lost, replacement, world.transaction, revision);
    var fenced, committed := FenceProposal(connected, proposed, world);
    StoredPolicyIsNormalized(store.playlists, loss.anchor);
    RecoveryDecides(participants, loss, lost, world, revision);
    store.playlists := world.interim;
    var stamped := store.StampParticipants(participants, StampRequest(committed, committed.content));
    return Finished(fenced && committed.owner != "", lost, participants, committed, stamped);
  }

  /** What ensureAudioOwnershipAfterReconnect finds. */
  datatype Reconnection = NoDevice | NoPolicy | OwnerIsOnline | Tried(recovery: Recovery)

  /** The device that reconnects belongs to a session whose owner, if it has one, is offline. */
  ghost predicate NeedsOwner(playlists: map<string, Playlist>, device: Device, rooms: map<string, nat>) {
    && Trim(device.id) != "" && StoredPolicy(playlists, device).Some?
    && var owner := StoredPolicy(playlists, device).value.owner;
       owner == "" || owner !in rooms || rooms[owner] == 0
  }

  /** ensureAudioOwnershipAfterReconnect: a recovery is carried out exactly when the session of
      the device needs an owner, and then it is decided as after a loss of the stored owner. */
  method EnsureAfterReconnect(store: PolicyStore, issuer: RevisionIssuer, devices: seq<Device>, device: Device, world: Surroundings)
    returns (r: Reconnection)
    requires issuer.Valid() && world.wallClock <= TWO_53
    modifies store, issuer
    ensures issuer.Valid()
    ensures r.NoDevice? <==> Trim(device.id) == ""
    ensures r.NoPolicy? <==> Trim(device.id) != "" && StoredPolicy(old(store.playlists), device).None?
    ensures r.Tried? <==> NeedsOwner(old(store.playlists), device, world.rooms)
    ensures !r.Tried? ==> store.playlists == old(store.playlists) && issuer.issued == old(issuer.issued)
    ensures r.Tried? ==> r.recovery.Finished? && Stamped(world.interim, r.recovery, store.playlists)
    ensures r.Tried? ==>
      var loss := Loss(StoredPolicy(old(store.playlists), device).value.owner, device, true);
      Decided(old(store.playlists), devices, loss, world, issuer.lastIssued, r.recovery)
  {
    hide Decided, Stamped, Normalized, StoredPolicy;
    if Trim(device.id) == "" {
      return NoDevice;
    }
    var policy := StoredPolicy(store.playlists, device);
    if policy.None? {
      return NoPolicy;
    }
    OwnerOfStored(store.playlists, device);
    var owner := Trim(policy.value.owner);
    if owner != "" && Online(world.rooms, owner) {
      return OwnerIsOnline;
    }
    var recovery := Recover(store, issuer, devices, Loss(owner, device, true), world);
    return Tried(recovery);
  }

  lemma OwnerOfStored(playlists: map<string, Playlist>, device: Device)
    requires StoredPolicy(playlists, device).Some?
    ensures var owner := StoredPolicy(playlists, device).value.owner; Trim(owner) == owner
  {
    StoredPolicyIsNormalized(playlists, device);
  }

  /** Whatever the network does, what is committed never grants the lost device; the owner, if
      any, is a connected participant. */
  lemma LostDeviceNeverRegranted(before: map<string, Playlist>, devices: seq<Device>, loss: Loss, world: Surroundings,
                                 revision: int, r: Recovery)
    requires r.Finished? && Decided(before, devices, loss, world, revision, r)
    requires forall d :: d in devices ==> Trimmed(d.id)
    requires Trimmed(loss.lostId) && loss.lostId != ""
    ensures !Grants(r.committed, loss.lostId)
    ensures r.committed.owner != "" ==> r.committed.owner != loss.lostId
    ensures r.committed.owner != "" ==> exists d :: d in r.participants && d.id == r.committed.owner && Online(world.rooms, d.id)
  {
    hide Trim, AllMuted, FirstOrdered, StoredPolicy, MaxStored;
    var connected := Connected(r.participants, world.rooms);
    if r.committed.owner != "" {
      var d :| d in connected && d != loss.lostId && Trim(d) == r.committed.owner;
      var device :| device in r.participants && Online(world.rooms, device.id) && device.id == d;
      assert device in devices;
      TrimOfTrimmed(d);
    }
    TrimOfTrimmed(loss.lostId);
    TrimOfTrimmed("");
    TrimOfTrimmed(r.committed.owner);
    OneDevicePerPolicy(r.committed, loss.lostId, loss.lostId);
  }

  /** The await changed no device's session, and without a source key no one has taken the
      new transaction id. */
  ghost predicate KeepsSession(interim: map<string, Playlist>, devices: seq<Device>, r: Recovery)
    requires r.Finished?
  {
    && "" !in interim
    && (forall d :: d in devices ==> (Participates(interim, d, r.lost) <==> d in r.participants))
    && (r.lost.sourceKey == "" ==>
          forall p :: p in interim && CommonPolicy(interim[p]).Some? ==>
            CommonPolicy(interim[p]).value.transaction != r.committed.transaction)
  }

  lemma StoredPolicyIsNormalized(playlists: map<string, Playlist>, device: Device)
    requires StoredPolicy(playlists, device).Some?
    ensures Normalized(StoredPolicy(playlists, device).value)
  {
  }

  lemma OwnerIsTrimmed(connected: set<string>, lostId: string, r: Recovery)
    requires r.Finished?
    ensures r.committed.owner == "" || r.committed.owner in EligibleIds(connected, lostId) ==> Trimmed(r.committed.owner)
  {
  }

  /** A recovery all of whose playlists accepted its valid policy has moved exactly the
      session it found: its devices read the committed policy, the others what they read. */
  lemma RecoveredSessionMoves(before: map<string, Playlist>, devices: seq<Device>, loss: Loss, world: Surroundings,
                              revision: int, r: Recovery, after: map<string, Playlist>)
    requires r.Finished? && Decided(before, devices, loss, world, revision, r) && Stamped(world.interim, r, after)
    requires KeepsSession(world.interim, devices, r)
    requires HasValidEpoch(r.committed) && r.stamped == PlaylistIds(r.participants)
    ensures forall d :: d in devices ==> (Participates(after, d, r.committed) <==> d in r.participants)
    ensures forall d :: d in r.participants ==> StoredPolicy(after, d) == Some(r.committed)
    ensures forall d :: d in devices && d !in r.participants ==> StoredPolicy(after, d) == StoredPolicy(world.interim, d)
  {
    hide Stamp, StoredPolicy, MaxStored, StampMany, Accepting, AllMuted, FirstOrdered, HasValidEpoch;
    StoredPolicyIsNormalized(before, loss.anchor);
    OwnerIsTrimmed(Connected(r.participants, world.rooms), loss.lostId, r);
    RecoveryMovesOneSession(world.interim, devices, r.participants, r.lost, StampRequest(r.committed, r.committed.content));
  }
}
