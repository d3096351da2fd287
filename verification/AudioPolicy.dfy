/**
 Audio policies and the playlists they are stamped into
 (server/lib/audio-ownership.js).

 A policy says which renderer of a session may be audible. Its revision orders it
 against every other policy; a playlist only ever accepts a newer one.
 */
module AudioPolicy {
  import opened Wrappers
  import opened Text
  import GuardedWrites

  const MAX_SAFE_INTEGER: int := 0x1F_FFFF_FFFF_FFFF

  /** A policy record as stored or received. Absent text is "", an absent or
      non-numeric number is None. */
  datatype Policy = Policy(
    version: int,
    output: string,
    owner: string,
    content: string,
    transaction: string,
    generation: Option<int>,
    revision: Option<int>,
    sourceKey: string)

  /** One published playlist item; `rest` stands for every field stamping keeps. */
  datatype Assignment = Assignment(rest: string, contentInstance: string, policy: Option<Policy>)

  type Playlist = seq<Assignment>

  function PositiveSafeInteger(value: Option<int>): Option<int> {
    if value.Some? && 0 < value.value <= MAX_SAFE_INTEGER then value else None
  }

  /** buildAudioPolicy: every text field trimmed, every number checked. */
  function Normalize(p: Policy): (n: Policy)
    ensures Normalized(n)
    ensures Normalized(p) ==> n == p
  {
    Policy(1, Trim(p.output), Trim(p.owner), Trim(p.content), Trim(p.transaction),
           PositiveSafeInteger(p.generation), PositiveSafeInteger(p.revision), Trim(p.sourceKey))
  }

  predicate Normalized(p: Policy) {
    && p.version == 1
    && Trimmed(p.output) && Trimmed(p.owner) && Trimmed(p.content)
    && Trimmed(p.transaction) && Trimmed(p.sourceKey)
    && PositiveSafeInteger(p.generation) == p.generation
    && PositiveSafeInteger(p.revision) == p.revision
  }

  predicate HasValidEpoch(p: Policy) {
    && p.version == 1
    && Trim(p.output) != "" && Trim(p.content) != "" && Trim(p.transaction) != ""
    && PositiveSafeInteger(p.generation).Some?
    && PositiveSafeInteger(p.revision).Some?
  }

  /** The seven keys two stored policies must agree on. */
  predicate SameKeys(p: Policy, q: Policy) {
    && p.transaction == q.transaction && p.content == q.content
    && p.owner == q.owner && p.output == q.output
    && p.generation == q.generation && p.revision == q.revision
    && p.sourceKey == q.sourceKey
  }

  function CommonPolicy(items: Playlist): Option<Policy> {
    if items == [] || exists i :: 0 <= i < |items| && !(items[i].policy.Some? && HasValidEpoch(items[i].policy.value))
    then None
    else if forall i :: 0 <= i < |items| ==> SameKeys(items[i].policy.value, items[0].policy.value)
    then Some(Normalize(items[0].policy.value))
    else None
  }

  function StoredRevision(item: Assignment): Option<int> {
    if item.policy.Some? then PositiveSafeInteger(item.policy.value.revision) else None
  }

  /** The greatest valid revision on any item; 0 when there is none. */
  function MaxStored(items: Playlist): (m: int)
    ensures 0 <= m <= MAX_SAFE_INTEGER
    ensures forall a :: a in items && StoredRevision(a).Some? ==> StoredRevision(a).value <= m
    ensures m > 0 ==> exists a :: a in items && StoredRevision(a) == Some(m)
    ensures m == 0 <==> forall a :: a in items ==> StoredRevision(a).None?
  {
    if items == [] then 0
    else
      var n := |items| - 1;
      var rest := MaxStored(items[..n]);
      var r := StoredRevision(items[n]);
      assert items == items[..n] + [items[n]];
      if r.Some? && r.value > rest then r.value else rest
  }

  /** audioPolicyCanReplaceAssignments. */
  predicate CanReplace(items: Playlist, policy: Policy) {
    var proposed := Normalize(policy);
    && HasValidEpoch(proposed)
    && var stored := MaxStored(items);
    if stored > 0 && proposed.revision.value != stored then proposed.revision.value > stored
    else
      match CommonPolicy(items)
      case None => stored == 0
      case Some(current) => SameKeys(proposed, current)
  }

  function StampAll(items: Playlist, policy: Policy, instance: string): (r: Playlist)
    ensures |r| == |items|
    ensures forall i :: 0 <= i < |r| ==>
      r[i] == Assignment(items[i].rest, instance, Some(policy.(content := instance)))
  {
    seq(|items|, i requires 0 <= i < |items| =>
      items[i].(contentInstance := instance, policy := Some(policy.(content := instance))))
  }

  /** stampPlaylistAudioPolicy: None when the write is refused. */
  function Stamp(items: Playlist, policy: Policy, contentInstanceId: string): Option<Playlist> {
    var normalized := Normalize(policy.(content := if policy.content != "" then policy.content else contentInstanceId));
    var instance := if Trim(contentInstanceId) != "" then Trim(contentInstanceId) else normalized.content;
    if items == [] || normalized.transaction == "" || normalized.revision.None? || instance == "" then None
    else if !CanReplace(items, normalized) then None
    else Some(StampAll(items, normalized, instance))
  }

  datatype StampRequest = StampRequest(policy: Policy, contentInstanceId: string)

  function Apply(items: Playlist, request: StampRequest): Playlist {
    match Stamp(items, request.policy, request.contentInstanceId)
    case None => items
    case Some(stamped) => stamped
  }

  function ApplyAll(items: Playlist, requests: seq<StampRequest>): Playlist {
    GuardedWrites.Fold(items, requests, Apply)
  }

  /** Requests as the callers build them: a valid policy, stamped under no other
      content instance than its own. */
  predicate WellFormed(request: StampRequest) {
    && HasValidEpoch(Normalize(request.policy))
    && Trim(request.contentInstanceId) in {"", Normalize(request.policy).content}
  }

  function Revision(request: StampRequest): int {
    match Normalize(request.policy).revision
    case None => 0
    case Some(revision) => revision
  }

  /** Distinct policies carry distinct revisions. */
  ghost predicate RevisionsIdentify(requests: seq<StampRequest>) {
    forall r, s :: r in requests && s in requests && Revision(r) == Revision(s) ==>
      Normalize(r.policy) == Normalize(s.policy)
  }

  // --- One guarded write, for a normalized valid policy ---

  ghost predicate Proper(n: Policy) {
    Normalized(n) && HasValidEpoch(n)
  }

  ghost function Write(items: Playlist, n: Policy): Playlist {
    if CanReplace(items, n) then StampAll(items, n, n.content) else items
  }

  lemma ApplyIsWrite(items: Playlist, request: StampRequest)
    requires WellFormed(request)
    ensures Apply(items, request) == Write(items, Normalize(request.policy))
  {
    var n := Normalize(request.policy);
    assert request.policy.content != "";
    assert request.policy.(content := request.policy.content) == request.policy;
    assert n.(content := n.content) == n;
    if items == [] {
      assert StampAll(items, n, n.content) == [];
    }
  }

  lemma ProperIsItself(n: Policy)
    requires Proper(n)
    ensures Normalize(n) == n && n.(content := n.content) == n && HasValidEpoch(n)
    ensures n.revision.Some? && n.revision.value > 0 && PositiveSafeInteger(n.revision) == n.revision
  {
  }

  lemma MaxOfEqual(items: Playlist, v: int)
    requires items != [] && v > 0
    requires forall a :: a in items ==> StoredRevision(a) == Some(v)
    ensures MaxStored(items) == v
  {
    hide MaxStored, StoredRevision;
    assert items[0] in items;
  }

  lemma CommonOfEqual(items: Playlist, n: Policy)
    requires items != [] && HasValidEpoch(n) && Normalize(n) == n
    requires forall i :: 0 <= i < |items| ==> items[i].policy == Some(n)
    ensures CommonPolicy(items) == Some(n)
  {
    hide HasValidEpoch, Normalize;
  }

  lemma StampedReads(items: Playlist, n: Policy)
    requires Proper(n) && items != []
    ensures var s := StampAll(items, n, n.content);
      MaxStored(s) == n.revision.value && CommonPolicy(s) == Some(n)
  {
    var s := StampAll(items, n, n.content);
    ProperIsItself(n);
    hide Proper, Normalize, HasValidEpoch, PositiveSafeInteger, MaxStored, CommonPolicy;
    forall i | 0 <= i < |s| ensures s[i].policy == Some(n) && StoredRevision(s[i]) == n.revision {
    }
    hide StampAll, StoredRevision;
    MaxOfEqual(s, n.revision.value);
    CommonOfEqual(s, n);
  }

  lemma StampTwice(items: Playlist, n: Policy, m: Policy)
    ensures StampAll(StampAll(items, n, n.content), m, m.content) == StampAll(items, m, m.content)
  {
  }

  lemma UnstampedAccepts(items: Playlist, n: Policy)
    requires Proper(n) && items != []
    ensures MaxStored(items) == 0 ==> CanReplace(items, n)
  {
    assert items[0] in items;
  }

  /** A policy is accepted exactly when it is valid and newer than everything stored, or is
      the policy that the playlist reads already. */
  lemma CanReplaceIff(items: Playlist, policy: Policy)
    ensures var n := Normalize(policy);
      CanReplace(items, policy) <==>
        HasValidEpoch(n) && (n.revision.value > MaxStored(items) || CommonPolicy(items) == Some(n))
  {
    var n := Normalize(policy);
    if CommonPolicy(items).Some? {
      CommonIsStored(items);
    }
    hide MaxStored, HasValidEpoch;
    if HasValidEpoch(n) {
      ValidHasRevision(n);
    }
  }

  lemma ValidHasRevision(n: Policy)
    requires HasValidEpoch(n)
    ensures n.revision.Some? && n.revision.value > 0
  {
  }

  /** A playlist reads a policy exactly when every item carries it, up to white space and
      numbers that are no positive integers, with the same seven keys. */
  lemma CommonPolicyIff(items: Playlist, n: Policy)
    ensures CommonPolicy(items) == Some(n) <==>
      && items != []
      && (forall i :: 0 <= i < |items| ==>
            && items[i].policy.Some? && HasValidEpoch(items[i].policy.value) && Normalize(items[i].policy.value) == n)
      && (forall i, j :: 0 <= i < |items| && 0 <= j < |items| ==> SameKeys(items[i].policy.value, items[j].policy.value))
  {
    hide HasValidEpoch;
    if CommonPolicy(items) == Some(n) {
      forall i | 0 <= i < |items| ensures Normalize(items[i].policy.value) == n {
        SameKeysNormalizeAlike(items[i].policy.value, items[0].policy.value);
      }
    }
  }

  lemma SameKeysNormalizeAlike(p: Policy, q: Policy)
    requires SameKeys(p, q)
    ensures Normalize(p) == Normalize(q)
  {
    hide Trim;
  }

  lemma NewerStands(items: Playlist, n: Policy, m: Policy)
    requires Proper(n) && Proper(m) && items != []
    requires n.revision == m.revision ==> n == m
    ensures Write(Write(items, n), m) == if m.revision.value >= n.revision.value then Write(items, m) else Write(items, n)
  {
    hide MaxStored, CommonPolicy, StampAll;
    if CanReplace(items, n) {
      StampedReads(items, n);
      StampTwice(items, n, m);
    }
    UnstampedAccepts(items, n);
    UnstampedAccepts(items, m);
  }

  lemma RequestsNewerStands(items: Playlist, r: StampRequest, q: StampRequest)
    requires WellFormed(r) && WellFormed(q) && items != []
    requires Revision(r) == Revision(q) ==> Normalize(r.policy) == Normalize(q.policy)
    ensures GuardedWrites.NewerStands(items, Apply, Revision, r, q)
  {
    var n, m := Normalize(r.policy), Normalize(q.policy);
    ApplyIsWrite(items, r);
    ApplyIsWrite(items, q);
    ApplyIsWrite(Write(items, n), q);
    NewerStands(items, n, m);
  }

  ghost predicate Newest(requests: seq<StampRequest>, w: StampRequest) {
    GuardedWrites.Newest(requests, Revision, w)
  }

  /** Stamping in any order, with any repetition, is stamping the newest policy once. */
  lemma StampingKeepsNewest(items: Playlist, requests: seq<StampRequest>, w: StampRequest)
    requires items != []
    requires forall r :: r in requests ==> WellFormed(r)
    requires RevisionsIdentify(requests) && Newest(requests, w)
    ensures ApplyAll(items, requests) == Apply(items, w)
  {
    forall n, m | n in requests && m in requests
      ensures GuardedWrites.NewerStands(items, Apply, Revision, n, m)
    {
      RequestsNewerStands(items, n, m);
    }
    GuardedWrites.FoldKeepsNewest(items, requests, Apply, Revision, w);
  }

  /** Two deliveries of the same policies leave the same playlist. */
  lemma StampingIsConfluent(items: Playlist, a: seq<StampRequest>, b: seq<StampRequest>)
    requires items != [] && a != []
    requires forall r :: r in a <==> r in b
    requires forall r :: r in a ==> WellFormed(r)
    requires RevisionsIdentify(a)
    ensures ApplyAll(items, a) == ApplyAll(items, b)
  {
    var w := GuardedWrites.NewestExists(a, Revision);
    StampingKeepsNewest(items, a, w);
    StampingKeepsNewest(items, b, w);
  }

  /** When the newest policy beats what is stored, every item carries it and it is
      what the playlist reads back. */
  lemma NewestIsReadBack(items: Playlist, requests: seq<StampRequest>, w: StampRequest)
    requires items != []
    requires forall r :: r in requests ==> WellFormed(r)
    requires RevisionsIdentify(requests) && Newest(requests, w)
    requires Revision(w) > MaxStored(items)
    ensures var final := ApplyAll(items, requests);
      && CommonPolicy(final) == Some(Normalize(w.policy))
      && forall i :: 0 <= i < |final| ==> final[i].policy == Some(Normalize(w.policy))
  {
    StampingKeepsNewest(items, requests, w);
    NewerIsReadBack(items, w);
  }

  lemma NewerIsReadBack(items: Playlist, w: StampRequest)
    requires items != [] && WellFormed(w) && Revision(w) > MaxStored(items)
    ensures var final := Apply(items, w);
      && CommonPolicy(final) == Some(Normalize(w.policy))
      && forall i :: 0 <= i < |final| ==> final[i].policy == Some(Normalize(w.policy))
  {
    var n := Normalize(w.policy);
    ApplyIsWrite(items, w);
    UnstampedAccepts(items, n);
    StampedReads(items, n);
    ProperIsItself(n);
    hide MaxStored, CommonPolicy, Apply;
    assert CanReplace(items, n);
  }

  /** Whatever is stamped, the greatest stored revision never falls. */
  lemma StoredRevisionNeverFalls(items: Playlist, request: StampRequest)
    ensures MaxStored(Apply(items, request)) >= MaxStored(items)
  {
    var s := Stamp(items, request.policy, request.contentInstanceId);
    if s.Some? {
      var n := Normalize(request.policy.(content :=
        if request.policy.content != "" then request.policy.content else request.contentInstanceId));
      assert s.value[0] in s.value;
      assert StoredRevision(s.value[0]) == n.revision;
      assert MaxStored(items) == 0 ==> MaxStored(s.value) >= 0;
    }
  }

  /** An accepted policy reads back as itself exactly when it is not stamped under
      another content instance. */
  lemma ReadBackIff(items: Playlist, request: StampRequest)
    requires items != [] && HasValidEpoch(Normalize(request.policy))
    requires CanReplace(items, Normalize(request.policy))
    ensures CommonPolicy(Apply(items, request)) == Some(Normalize(request.policy))
      <==> Trim(request.contentInstanceId) in {"", Normalize(request.policy).content}
  {
    var n := Normalize(request.policy);
    var instance := Trim(request.contentInstanceId);
    if WellFormed(request) {
      hide MaxStored, CommonPolicy, StampAll, Apply, CanReplace;
      ApplyIsWrite(items, request);
      StampedReads(items, n);
    } else {
      OtherInstanceIsStamped(items, request);
      var s := StampAll(items, n, instance);
      hide CanReplace, Apply, StampAll, HasValidEpoch, SameKeys;
      assert s[0].policy.value.content == instance;
      assert Normalize(s[0].policy.value).content != n.content;
    }
  }

  lemma OtherInstanceIsStamped(items: Playlist, request: StampRequest)
    requires items != [] && HasValidEpoch(Normalize(request.policy)) && !WellFormed(request)
    requires CanReplace(items, Normalize(request.policy))
    ensures Apply(items, request) == StampAll(items, Normalize(request.policy), Trim(request.contentInstanceId))
  {
    hide CanReplace, StampAll;
    assert request.policy.(content := request.policy.content) == request.policy;
  }

  lemma CommonIsStored(items: Playlist)
    requires CommonPolicy(items).Some?
    ensures MaxStored(items) > 0 && CommonPolicy(items).value.revision == Some(MaxStored(items))
  {
    var c := CommonPolicy(items).value;
    hide MaxStored, SameKeys;
    forall a | a in items ensures StoredRevision(a) == c.revision {
      var i :| 0 <= i < |items| && items[i] == a;
      SameKeysSameRevision(items[i].policy.value, items[0].policy.value);
    }
    MaxOfEqual(items, c.revision.value);
  }

  lemma SameKeysSameRevision(p: Policy, q: Policy)
    ensures SameKeys(p, q) ==> p.revision == q.revision
  {
  }

  /** On a playlist that already reads one policy, stamping is a write guarded by
      the revision alone, as long as revisions identify policies. */
  lemma StampIsRevisionGuarded(items: Playlist, request: StampRequest)
    requires WellFormed(request) && CommonPolicy(items).Some?
    requires CommonPolicy(items).value.revision.Some?
    requires Revision(request) != CommonPolicy(items).value.revision.value
    ensures CommonPolicy(Apply(items, request)) ==
      if Revision(request) > CommonPolicy(items).value.revision.value
      then Some(Normalize(request.policy)) else CommonPolicy(items)
  {
    var c := CommonPolicy(items).value;
    ApplyIsWrite(items, request);
    CommonIsStored(items);
    hide MaxStored, CommonPolicy, Apply, Normalize, HasValidEpoch;
    if Revision(request) > c.revision.value {
      StampedReads(items, Normalize(request.policy));
    }
  }

  // --- What a policy grants to one device ---

  datatype DevicePolicy = DevicePolicy(policy: Policy, audioAllowed: bool, forceMuted: bool)

  /** policyForDevice. */
  function PolicyForDevice(policy: Policy, deviceId: string): Option<DevicePolicy> {
    var n := Normalize(policy);
    if policy.version != 1 || !HasValidEpoch(n) then None
    else
      var allowed := n.owner != "" && n.owner == Trim(deviceId);
      Some(DevicePolicy(n, allowed, !allowed))
  }

  ghost predicate Grants(policy: Policy, deviceId: string) {
    PolicyForDevice(policy, deviceId).Some? && PolicyForDevice(policy, deviceId).value.audioAllowed
  }

  /** One policy makes at most one device audible, and none when it names no owner. */
  lemma OneDevicePerPolicy(policy: Policy, d: string, e: string)
    ensures Grants(policy, d) && Grants(policy, e) ==> Trim(d) == Trim(e)
    ensures Trim(policy.owner) == "" ==> !Grants(policy, d)
    ensures policy.version == 1 && HasValidEpoch(Normalize(policy)) && Trim(d) != "" ==>
      (Grants(policy, d) <==> Trim(policy.owner) == Trim(d))
  {
  }

  /** A positive number that JavaScript holds exactly. */
  ghost predicate IsPositiveSafe(value: Option<int>) {
    value.Some? && 0 < value.value < 0x20_0000_0000_0000
  }

  /** A policy says something to a device exactly when it names an output, a content and a
      transaction and has a generation and a revision; it then says who is audible. */
  lemma PolicyForDeviceMeans(policy: Policy, deviceId: string)
    ensures PolicyForDevice(policy, deviceId).Some? <==>
      && policy.version == 1 && Trim(policy.output) != "" && Trim(policy.content) != "" && Trim(policy.transaction) != ""
      && IsPositiveSafe(policy.generation) && IsPositiveSafe(policy.revision)
    ensures PolicyForDevice(policy, deviceId).Some? ==>
      var said := PolicyForDevice(policy, deviceId).value;
      && (said.audioAllowed <==> Trim(policy.owner) != "" && Trim(policy.owner) == Trim(deviceId))
      && (said.forceMuted <==> !said.audioAllowed)
      && said.policy.revision == policy.revision && said.policy.generation == policy.generation
      && said.policy.owner == Trim(policy.owner) && said.policy.output == Trim(policy.output)
  {
    assert Trim(Trim(policy.output)) == Trim(policy.output);
    assert Trim(Trim(policy.content)) == Trim(policy.content);
    assert Trim(Trim(policy.transaction)) == Trim(policy.transaction);
    hide Trim;
  }

  /** What every accepted policy carries. */
  lemma AcceptedIsValid(items: Playlist, policy: Policy)
    requires CanReplace(items, policy)
    ensures Trim(policy.output) != "" && Trim(policy.content) != "" && Trim(policy.transaction) != ""
    ensures IsPositiveSafe(policy.generation) && IsPositiveSafe(policy.revision)
  {
    hide MaxStored, CommonPolicy;
    assert Trim(Trim(policy.output)) == Trim(policy.output);
    assert Trim(Trim(policy.content)) == Trim(policy.content);
    assert Trim(Trim(policy.transaction)) == Trim(policy.transaction);
  }

  /** A policy without a content takes the content instance it is stamped under. */
  lemma StampDefaultsContent(items: Playlist, policy: Policy, contentInstanceId: string)
    requires policy.content == ""
    ensures Stamp(items, policy, contentInstanceId) == Stamp(items, policy.(content := contentInstanceId), contentInstanceId)
  {
    hide CanReplace, StampAll, Normalize;
  }

  /** A well-formed request is stamped exactly when there are items and the policy is accepted. */
  lemma StampsIff(items: Playlist, request: StampRequest)
    requires WellFormed(request)
    ensures Stamp(items, request.policy, request.contentInstanceId).Some? <==> items != [] && CanReplace(items, request.policy)
  {
    hide MaxStored, CommonPolicy, StampAll;
    var n := Normalize(request.policy);
    assert request.policy.content != "";
    assert request.policy.(content := request.policy.content) == request.policy;
    assert Normalize(n) == n;
  }
}
