/**
 The mute-before-grant handshake (server/lib/audio-ownership-transaction.js).
 Every session of every participant must acknowledge that it is muted before the
 requested owner is committed; otherwise a policy without owner is.
 */
module AudioFence {
  import opened Wrappers
  import opened Text
  import opened AudioPolicy
  import opened AudioElection
  import Sorting

  datatype Ack = Ack(
    ok: bool, muted: bool, hostMuted: bool, phase: string, deviceId: string, transaction: string,
    revision: Option<int>, generation: Option<int>, session: string)

  /** What one emitted fence can end with. A missing response is None. */
  datatype Reply =
    | TransportUnavailable
    | EmitThrew
    | TimedOut
    | Failed
    | Responses(acks: seq<Option<Ack>>)

  function MutedPolicy(policy: Policy): Policy {
    Normalize(policy.(owner := ""))
  }

  function SafeInteger(value: Option<int>): bool {
    value.Some? && -MAX_SAFE_INTEGER <= value.value <= MAX_SAFE_INTEGER
  }

  /** validFenceAck. */
  predicate ValidFenceAck(ack: Option<Ack>, deviceId: string, policy: Policy) {
    && ack.Some?
    && ack.value.ok && ack.value.muted && ack.value.hostMuted
    && ack.value.phase == "muted"
    && ack.value.deviceId == deviceId
    && ack.value.transaction == policy.transaction
    && SafeInteger(policy.revision) && policy.revision.value > 0
    && ack.value.revision == policy.revision
    && SafeInteger(policy.generation) && policy.generation.value > 0
    && ack.value.generation == policy.generation
    && Trim(ack.value.session) != ""
  }

  /** What the player answers to a fence (server/player/index.html): for the policy it was
      sent, and in order only if it accepted the fence and media, embed and host are muted. */
  function PlayerAck(deviceId: string, session: string, fenced: Policy, applied: bool, mediaMuted: bool, embedMuted: bool, hostMuted: bool): Ack {
    Ack(applied && mediaMuted && embedMuted && hostMuted, mediaMuted && embedMuted, hostMuted, "muted", deviceId,
        fenced.transaction, fenced.revision, fenced.generation, session)
  }

  /** A player's answer counts for a policy exactly when the player is the device asked, names
      its session, has accepted the fence and is muted throughout, and was sent that epoch. */
  lemma PlayerAckCountsIff(device: string, session: string, fenced: Policy, applied: bool, mediaMuted: bool, embedMuted: bool,
                           hostMuted: bool, asked: string, policy: Policy)
    requires Normalized(policy)
    ensures ValidFenceAck(Some(PlayerAck(device, session, fenced, applied, mediaMuted, embedMuted, hostMuted)), asked, policy) <==>
      && applied && mediaMuted && embedMuted && hostMuted && device == asked && Trim(session) != ""
      && policy.revision.Some? && policy.generation.Some?
      && fenced.transaction == policy.transaction && fenced.revision == policy.revision && fenced.generation == policy.generation
  {
  }

  /** Whoever answers, an answer that counts says that it is muted, and it counts for no other
      device and no other epoch. */
  lemma AckIsForOneFence(ack: Ack, d: string, e: string, p: Policy, q: Policy)
    requires ValidFenceAck(Some(ack), d, p)
    ensures ack.ok && ack.muted && ack.hostMuted && ack.phase == "muted"
    ensures ValidFenceAck(Some(ack), e, q) ==>
      d == e && p.transaction == q.transaction && p.revision == q.revision && p.generation == q.generation
  {
  }

  function ValidAcks(acks: seq<Option<Ack>>, deviceId: string, policy: Policy): (r: seq<Ack>)
    ensures |r| <= |acks|
  {
    if acks == [] then []
    else
      var rest := ValidAcks(acks[1..], deviceId, policy);
      if ValidFenceAck(acks[0], deviceId, policy) then [acks[0].value] + rest else rest
  }

  function SessionNames(acks: seq<Ack>): seq<string> {
    seq(|acks|, i requires 0 <= i < |acks| => acks[i].session)
  }

  function Sessions(acks: seq<Ack>): set<string> {
    set x | x in SessionNames(acks)
  }

  /** The verdict of emitFence on the first event that settles it. */
  predicate FenceHolds(reply: Reply, deviceId: string, policy: Policy, expected: nat) {
    && reply.Responses?
    && var valid := ValidAcks(reply.acks, deviceId, policy);
    |reply.acks| == expected && |valid| == expected && |Sessions(valid)| == expected
  }

  /** Each of the room's sessions answered once, with a valid muted acknowledgement. */
  ghost predicate EverySessionMuted(reply: Reply, deviceId: string, policy: Policy, expected: nat) {
    && reply.Responses? && |reply.acks| == expected
    && (forall i :: 0 <= i < expected ==> ValidFenceAck(reply.acks[i], deviceId, policy))
    && (forall i, j :: 0 <= i < j < expected ==> reply.acks[i].value.session != reply.acks[j].value.session)
  }

  lemma {:induction false} AllValid(acks: seq<Option<Ack>>, deviceId: string, policy: Policy)
    ensures |ValidAcks(acks, deviceId, policy)| == |acks| <==>
      forall i :: 0 <= i < |acks| ==> ValidFenceAck(acks[i], deviceId, policy)
    ensures |ValidAcks(acks, deviceId, policy)| == |acks| ==>
      forall i :: 0 <= i < |acks| ==> acks[i] == Some(ValidAcks(acks, deviceId, policy)[i])
  {
    if acks != [] {
      AllValid(acks[1..], deviceId, policy);
      assert acks == [acks[0]] + acks[1..];
    }
  }

  lemma AllDistinct(acks: seq<Ack>)
    ensures |Sessions(acks)| == |acks| <==>
      forall i, j :: 0 <= i < j < |acks| ==> acks[i].session != acks[j].session
  {
    var names := SessionNames(acks);
    Sorting.DistinctCount(names);
    assert forall i :: 0 <= i < |acks| ==> names[i] == acks[i].session;
  }

  /** Counting valid answers and their sessions decides that every session is muted. */
  lemma FenceHoldsIff(reply: Reply, deviceId: string, policy: Policy, expected: nat)
    ensures FenceHolds(reply, deviceId, policy, expected) <==> EverySessionMuted(reply, deviceId, policy, expected)
  {
    if reply.Responses? {
      var valid := ValidAcks(reply.acks, deviceId, policy);
      AllValid(reply.acks, deviceId, policy);
      AllDistinct(valid);
    }
  }

  /** One emitted fence: a timer and an acknowledgement callback race to settle it. */
  class FenceAttempt {
    const deviceId: string
    const policy: Policy
    const expected: nat
    var settled: bool
    var holds: bool
    ghost var events: seq<Reply>

    /** Settled by the first event and by no later one. */
    ghost predicate Valid()
      reads this
    {
      && (settled <==> events != [])
      && (settled ==> (holds <==> EverySessionMuted(events[0], deviceId, policy, expected)))
    }

    constructor (deviceId: string, policy: Policy, expected: nat)
      ensures Valid() && !settled && events == []
      ensures this.deviceId == deviceId && this.policy == policy && this.expected == expected
    {
      this.deviceId, this.policy, this.expected := deviceId, policy, expected;
      settled, holds, events := false, false, [];
    }

    method Finish(reply: Reply)
      requires Valid()
      modifies this
      ensures Valid() && settled
      ensures events == old(events) + [reply]
      ensures old(settled) ==> holds == old(holds)
      ensures !old(settled) ==> (holds <==> EverySessionMuted(reply, deviceId, policy, expected))
    {
      FenceHoldsIff(reply, deviceId, policy, expected);
      if !settled {
        settled := true;
        holds := FenceHolds(reply, deviceId, policy, expected);
      }
      events := events + [reply];
    }
  }

  datatype FenceResult = FenceResult(
    ok: bool, acknowledged: seq<string>, offline: seq<string>, failed: seq<string>, committed: Policy)

  /** fenceAudioOwnershipTargets, given the sessions in each room and the event that
      settled each participant's fence. */
  function FenceTargets(deviceIds: seq<string>, policy: Policy, rooms: map<string, nat>, replies: map<string, Reply>): FenceResult {
    var participants := UniqueIds(deviceIds);
    var offline := Filter(participants, set d | d in participants && !Online(rooms, d));
    var online := Filter(participants, set d | d in participants && Online(rooms, d));
    var acknowledged := Filter(online, set d | d in participants && Acknowledges(d, policy, rooms, replies));
    var failed := offline + Filter(online, set d | d in participants && !Acknowledges(d, policy, rooms, replies));
    var ok := participants != [] && failed == [];
    FenceResult(ok, acknowledged, offline, failed, if ok then policy else MutedPolicy(policy))
  }

  predicate Online(rooms: map<string, nat>, deviceId: string) {
    deviceId in rooms && rooms[deviceId] > 0
  }

  predicate Acknowledges(deviceId: string, policy: Policy, rooms: map<string, nat>, replies: map<string, Reply>) {
    && Online(rooms, deviceId)
    && FenceHolds(if deviceId in replies then replies[deviceId] else TimedOut, deviceId, MutedPolicy(policy), rooms[deviceId])
  }

  ghost predicate MutedInRoom(deviceId: string, policy: Policy, rooms: map<string, nat>, replies: map<string, Reply>) {
    && deviceId in rooms && rooms[deviceId] > 0 && deviceId in replies
    && EverySessionMuted(replies[deviceId], deviceId, MutedPolicy(policy), rooms[deviceId])
  }

  lemma AcknowledgesIff(deviceId: string, policy: Policy, rooms: map<string, nat>, replies: map<string, Reply>)
    ensures Acknowledges(deviceId, policy, rooms, replies) <==> MutedInRoom(deviceId, policy, rooms, replies)
  {
    if Online(rooms, deviceId) && deviceId in replies {
      FenceHoldsIff(replies[deviceId], deviceId, MutedPolicy(policy), rooms[deviceId]);
    }
  }

  /** The requested policy is committed exactly when there is a participant and every
      session in every participant's room is proved muted for this very transaction. */
  lemma FenceCommitsIff(deviceIds: seq<string>, policy: Policy, rooms: map<string, nat>, replies: map<string, Reply>)
    ensures var result := FenceTargets(deviceIds, policy, rooms, replies);
      && (result.ok <==> IdSet(deviceIds) != {} && forall d :: d in IdSet(deviceIds) ==> MutedInRoom(d, policy, rooms, replies))
      && (result.ok ==> result.committed == policy)
  {
    var result := FenceTargets(deviceIds, policy, rooms, replies);
    var participants := UniqueIds(deviceIds);
    assert participants != [] <==> IdSet(deviceIds) != {} by {
      assert participants != [] ==> participants[0] in participants;
    }
    forall d | d in IdSet(deviceIds)
      ensures d in result.failed <==> !MutedInRoom(d, policy, rooms, replies)
    {
      AcknowledgesIff(d, policy, rooms, replies);
    }
    assert forall d :: d in result.failed ==> d in IdSet(deviceIds);
    assert result.failed != [] ==> result.failed[0] in result.failed;
  }

  /** Any other outcome commits the same epoch and makes no device audible. */
  lemma FailedFenceGrantsNothing(deviceIds: seq<string>, policy: Policy, rooms: map<string, nat>, replies: map<string, Reply>, d: string)
    requires !FenceTargets(deviceIds, policy, rooms, replies).ok
    ensures var committed := FenceTargets(deviceIds, policy, rooms, replies).committed;
      && !Grants(committed, d)
      && committed == Normalize(policy).(owner := "")
  {
    OneDevicePerPolicy(MutedPolicy(policy), d, d);
  }

  /** The participants split into acknowledged and failed ones. */
  lemma OutcomesPartition(deviceIds: seq<string>, policy: Policy, rooms: map<string, nat>, replies: map<string, Reply>, d: string)
    ensures var result := FenceTargets(deviceIds, policy, rooms, replies);
      && (d in IdSet(deviceIds) <==> d in result.acknowledged || d in result.failed)
      && !(d in result.acknowledged && d in result.failed)
      && (d in result.offline <==> d in IdSet(deviceIds) && !Online(rooms, d))
  {
  }
}
