/**
 Stopping a recording container by its verified identity
 (kamrui-media-edge/camera-api/docker-recording-runtime.js), against a Docker daemon
 that may answer anything.
 */
module DockerStop {
  import opened StopDiscipline
  import opened Text
  import opened Wrappers

  const SESSION_LABEL := "com.mbfd.camera.session"
  const NONCE_LABEL := "com.mbfd.camera.nonce"
  const RECORDING_LABEL := "com.mbfd.camera.recording"
  const PIDS_LIMIT := 128

  /** The identity kept with the recording. Paths are resolved. */
  datatype DockerIdentity = DockerIdentity(
    backend: string, containerId: string, containerName: string, imageRef: string, imageId: string,
    imageDigest: string, sessionId: string, sessionNonce: string, recordingRoot: string,
    commandHash: string, runAsUser: string)

  datatype Mount = Mount(bind: bool, source: string, destination: string, writable: bool)

  /** What `docker inspect` shows, in the parts that are compared. */
  datatype Container = Container(
    id: string, name: string, image: string, configuredImage: string, labels: map<string, string>,
    commandHash: string, user: string, isolation: Isolation, mounts: seq<Mount>, running: bool)

  datatype Isolation = Isolation(
    networkMode: string, readonlyRoot: bool, capDrop: seq<string>, securityOpt: seq<string>, pidsLimit: int)

  datatype Reply = Missing | Failed | Garbled | Found(container: Container)

  datatype Status = Running | Stopped | Mismatch(reason: string) | Unavailable

  datatype StopError = IdentityMismatch | StatusUnavailable | SignalFailed | DidNotTerminate

  /** `signal` is None when the container was already gone. */
  datatype StopResult = StopResult(signal: Option<Signal>)

  datatype Config = Config(imageRef: string, imageDigest: string)

  predicate IsHexDigit(c: char) {
    '0' <= c <= '9' || 'a' <= c <= 'f' || 'A' <= c <= 'F'
  }

  predicate IsContainerId(s: string) {
    |s| == 64 && forall c :: c in s ==> IsHexDigit(c)
  }

  /** What is checked before Docker is asked. */
  predicate Usable(config: Config, identity: DockerIdentity) {
    && identity.backend == "docker" && IsContainerId(identity.containerId)
    && identity.imageRef == config.imageRef && identity.imageDigest == config.imageDigest
  }

  function WithoutSlash(name: string): string {
    if name != "" && name[0] == '/' then name[1..] else name
  }

  predicate LabelIs(labels: map<string, string>, key: string, value: string) {
    key in labels && labels[key] == value
  }

  predicate HasNoNewPrivileges(options: seq<string>) {
    exists o :: o in options && "no-new-privileges" <= ToLower(o)
  }

  /** `find`: the first bind mount of the recording root onto itself. */
  function FindMount(mounts: seq<Mount>, root: string): Option<Mount> {
    if mounts == [] then None
    else if mounts[0].bind && mounts[0].source == root && mounts[0].destination == root then Some(mounts[0])
    else FindMount(mounts[1..], root)
  }

  predicate MountIsWritable(mounts: seq<Mount>, root: string) {
    var mount := FindMount(mounts, root);
    mount.Some? && mount.value.writable
  }

  datatype Check = Check(name: string, passed: bool)

  /** The checks of dockerIdentityMatches, in order. */
  function Checks(expected: DockerIdentity, actual: Container): seq<Check> {
    [Check("container id", actual.id == expected.containerId),
     Check("container name", WithoutSlash(actual.name) == expected.containerName),
     Check("image id", ToLower(actual.image) == ToLower(expected.imageId)),
     Check("configured image", actual.configuredImage == expected.imageRef),
     Check("session label", LabelIs(actual.labels, SESSION_LABEL, expected.sessionId)),
     Check("nonce label", LabelIs(actual.labels, NONCE_LABEL, expected.sessionNonce)),
     Check("recording label", LabelIs(actual.labels, RECORDING_LABEL, "1")),
     Check("command", actual.commandHash == expected.commandHash),
     Check("user", actual.user == expected.runAsUser),
     Check("host network", actual.isolation.networkMode == "host"),
     Check("read-only root", actual.isolation.readonlyRoot),
     Check("all capabilities dropped", "ALL" in actual.isolation.capDrop),
     Check("no-new-privileges", HasNoNewPrivileges(actual.isolation.securityOpt)),
     Check("PID limit", actual.isolation.pidsLimit == PIDS_LIMIT),
     Check("recording mount", MountIsWritable(actual.mounts, expected.recordingRoot))]
  }

  function FirstFailed(checks: seq<Check>): Option<string> {
    if checks == [] then None
    else if checks[0].passed then FirstFailed(checks[1..])
    else Some(checks[0].name)
  }

  lemma {:induction false} NoneFailedIff(checks: seq<Check>)
    ensures FirstFailed(checks).None? <==> forall c :: c in checks ==> c.passed
  {
    if checks != [] {
      NoneFailedIff(checks[1..]);
      assert forall c :: c in checks <==> c == checks[0] || c in checks[1..];
    }
  }

  /** The mount at `k` is the first that binds the recording root onto itself, and it is writable. */
  ghost predicate BindsRoot(mounts: seq<Mount>, root: string, k: nat)
    requires k < |mounts|
  {
    && mounts[k].bind && mounts[k].source == root == mounts[k].destination && mounts[k].writable
    && forall j :: 0 <= j < k ==> !(mounts[j].bind && mounts[j].source == root == mounts[j].destination)
  }

  ghost predicate RootIsMounted(mounts: seq<Mount>, root: string) {
    exists k :: 0 <= k < |mounts| && BindsRoot(mounts, root, k)
  }

  lemma BindsRootShift(mounts: seq<Mount>, root: string, k: nat)
    requires k < |mounts| - 1
    requires !(mounts[0].bind && mounts[0].source == root == mounts[0].destination)
    ensures BindsRoot(mounts[1..], root, k) <==> BindsRoot(mounts, root, k + 1)
  {
    var rest := mounts[1..];
    if BindsRoot(rest, root, k) {
      forall j | 0 <= j < k + 1 ensures !(mounts[j].bind && mounts[j].source == root == mounts[j].destination) {
        assert j > 0 ==> mounts[j] == rest[j - 1];
      }
    }
    if BindsRoot(mounts, root, k + 1) {
      forall j | 0 <= j < k ensures !(rest[j].bind && rest[j].source == root == rest[j].destination) {
        assert rest[j] == mounts[j + 1];
      }
    }
  }

  lemma {:induction false} MountIsWritableIff(mounts: seq<Mount>, root: string)
    ensures MountIsWritable(mounts, root) <==> RootIsMounted(mounts, root)
  {
    if mounts != [] {
      MountIsWritableIff(mounts[1..], root);
      if mounts[0].bind && mounts[0].source == root && mounts[0].destination == root {
        if mounts[0].writable {
          assert BindsRoot(mounts, root, 0);
        }
      } else {
        forall k | 0 <= k < |mounts| - 1 ensures BindsRoot(mounts[1..], root, k) <==> BindsRoot(mounts, root, k + 1) {
          BindsRootShift(mounts, root, k);
        }
        if k :| 0 <= k < |mounts| && BindsRoot(mounts, root, k) {
          assert BindsRoot(mounts[1..], root, k - 1);
        }
      }
    }
  }

  /** The full identity, whatever the order of the checks. */
  ghost predicate FullMatch(expected: DockerIdentity, actual: Container) {
    && (actual.id == expected.containerId && WithoutSlash(actual.name) == expected.containerName)
    && (ToLower(actual.image) == ToLower(expected.imageId) && actual.configuredImage == expected.imageRef)
    && LabelIs(actual.labels, SESSION_LABEL, expected.sessionId)
    && LabelIs(actual.labels, NONCE_LABEL, expected.sessionNonce)
    && LabelIs(actual.labels, RECORDING_LABEL, "1")
    && (actual.commandHash == expected.commandHash && actual.user == expected.runAsUser)
    && Confined(actual.isolation)
    && RootIsMounted(actual.mounts, expected.recordingRoot)
  }

  predicate Confined(i: Isolation) {
    && i.networkMode == "host" && i.readonlyRoot && "ALL" in i.capDrop
    && HasNoNewPrivileges(i.securityOpt) && i.pidsLimit == PIDS_LIMIT
  }

  lemma VerdictIff(expected: DockerIdentity, actual: Container)
    ensures FirstFailed(Checks(expected, actual)).None? <==> FullMatch(expected, actual)
  {
    hide LabelIs, HasNoNewPrivileges, MountIsWritable, RootIsMounted, WithoutSlash, ToLower, FirstFailed;
    var checks := Checks(expected, actual);
    NoneFailedIff(checks);
    MountIsWritableIff(actual.mounts, expected.recordingRoot);
    if forall c :: c in checks ==> c.passed {
      forall i | 0 <= i < 15 ensures checks[i].passed {
        assert checks[i] in checks;
      }
      assert checks[0].passed && checks[1].passed && checks[2].passed && checks[3].passed && checks[4].passed;
      assert checks[5].passed && checks[6].passed && checks[7].passed && checks[8].passed && checks[9].passed;
      assert checks[10].passed && checks[11].passed && checks[12].passed && checks[13].passed && checks[14].passed;
    }
  }

  /** The status of the answer: the identity is compared before `running` is looked at. */
  function StatusOf(identity: DockerIdentity, reply: Reply): Status {
    match reply
    case Missing => Stopped
    case Failed => Unavailable
    case Garbled => Unavailable
    case Found(container) =>
      var reason := FirstFailed(Checks(identity, container));
      if reason.Some? then Mismatch(reason.value) else if container.running then Running else Stopped
  }

  /** What an answer shows, stated without the code's own verdict. */
  ghost function ReplyKind(identity: DockerIdentity, reply: Reply): Kind {
    match reply
    case Missing => Gone
    case Failed => Refuted
    case Garbled => Refuted
    case Found(container) =>
      if !FullMatch(identity, container) then Refuted else if container.running then Identified else Gone
  }

  ghost predicate StatusFits(status: Status, kind: Kind) {
    match status
    case Running => kind.Identified?
    case Stopped => kind.Gone?
    case Mismatch(_) => kind.Refuted?
    case Unavailable => kind.Refuted?
  }

  lemma StatusIsSound(identity: DockerIdentity, reply: Reply)
    ensures StatusFits(StatusOf(identity, reply), ReplyKind(identity, reply))
  {
    if reply.Found? {
      VerdictIff(identity, reply.container);
    }
    hide FullMatch, Checks, FirstFailed;
  }

  /** The Docker daemon; see ProcessStop.Host for the shape of its answers. */
  class Daemon {
    const config: Config
    const identity: DockerIdentity
    const replies: nat -> Reply
    const delivered: nat -> bool
    const lag: nat -> nat
    var calls: nat
    var now: int
    ghost var trace: seq<Event>

    constructor (config: Config, identity: DockerIdentity, replies: nat -> Reply, delivered: nat -> bool, lag: nat -> nat, now: int)
      ensures this.config == config && this.identity == identity && this.now == now && trace == []
      ensures this.replies == replies && this.delivered == delivered && this.lag == lag
    {
      this.config, this.identity, this.replies, this.delivered, this.lag := config, identity, replies, delivered, lag;
      this.now, calls, trace := now, 0, [];
    }

    method AskInspect() returns (reply: Reply)
      modifies this
      ensures now >= old(now)
      ensures trace == old(trace) + [Event(ReplyKind(identity, reply), now, reply.Found?)]
    {
      now, calls := now + lag(calls), calls + 1;
      reply := replies(calls);
      trace := trace + [Event(ReplyKind(identity, reply), now, reply.Found?)];
    }

    /** `docker kill` by container id. */
    method AskKill(containerId: string, signal: Signal) returns (ok: bool)
      modifies this
      ensures now >= old(now)
      ensures trace == old(trace) + [Event(SignalKind(signal, containerId == identity.containerId), now, ok)]
    {
      now, calls := now + lag(calls), calls + 1;
      ok := delivered(calls);
      trace := trace + [Event(SignalKind(signal, containerId == identity.containerId), now, ok)];
    }

    method Delay(ms: nat)
      modifies this
      ensures now >= old(now) + ms
      ensures trace == old(trace) + [Event(Pause, now, true)]
    {
      now, calls := now + ms + lag(calls), calls + 1;
      trace := trace + [Event(Pause, now, true)];
    }
  }

  // --- What the trace of one call must be ---

  predicate IsLook(e: Event) {
    e.kind.Identified? || e.kind.Refuted? || e.kind.Gone?
  }

  /** The error for a look that refuted the identity. */
  function Refusal(look: Event): StopError {
    if look.ok then IdentityMismatch else StatusUnavailable
  }

  function AtLeastZero(ms: int): int {
    if ms > 0 then ms else 0
  }

  /** waitUntilStopped: it looks, pauses and looks again, until the container is gone or
      refuted, or is still there at the deadline. */
  ghost predicate Watches(w: seq<Event>, from: int, timeout: int) {
    && |w| % 2 == 1 && IsLook(w[|w| - 1])
    && (forall i :: 0 <= i < |w| - 1 ==> w[i].kind == if i % 2 == 0 then Identified else Pause)
    && (forall i :: 0 <= i < |w| - 1 && w[i].kind.Identified? ==> w[i].at < from + AtLeastZero(timeout))
    && (w[|w| - 1].kind.Identified? ==> w[|w| - 1].at >= from + AtLeastZero(timeout))
  }

  /** The signal with, if it fails, the look that follows; `through` when it counts as delivered. */
  ghost predicate Sends(t: seq<Event>, kind: Kind, through: bool) {
    && t != [] && t[0].kind == kind
    && (if t[0].ok then |t| == 1 && through else |t| == 2 && IsLook(t[1]) && (through <==> t[1].kind.Gone?))
  }

  /** What the last look of the wait says about the result. */
  ghost predicate Reports(look: Event, signal: Signal, r: Result<StopResult, StopError>) {
    && (look.kind.Gone? ==> r == Ok(StopResult(Some(signal))))
    && (look.kind.Refuted? ==> r == Err(Refusal(look)))
  }

  /** SIGKILL is the first `k` events, the last wait the others. */
  ghost predicate KillsBy(t: seq<Event>, k: int, from: int, killTimeout: int, r: Result<StopResult, StopError>) {
    && 0 < k <= |t|
    && (|| (Sends(t[..k], Kill, false) && k == |t| && r == Err(SignalFailed))
        || (Sends(t[..k], Kill, true) && Watches(t[k..], t[k - 1].at, killTimeout)
            && Reports(t[|t| - 1], SigKill, r)
            && (t[|t| - 1].kind.Identified? ==> r == Err(DidNotTerminate))))
  }

  /** From the second check on. */
  ghost predicate Kills(t: seq<Event>, killTimeout: int, r: Result<StopResult, StopError>) {
    && t != [] && IsLook(t[0])
    && (!t[0].kind.Identified? ==> |t| == 1 && Reports(t[0], SigInt, r))
    && (t[0].kind.Identified? ==> exists k :: KillsBy(t[1..], k, t[0].at, killTimeout, r))
  }

  /** The graceful wait is the first `k` events. */
  ghost predicate WaitsFor(t: seq<Event>, k: int, from: int, graceful: int, killTimeout: int, r: Result<StopResult, StopError>) {
    && 0 < k <= |t| && Watches(t[..k], from, graceful)
    && (if t[k - 1].kind.Identified? then Kills(t[k..], killTimeout, r) else k == |t| && Reports(t[k - 1], SigInt, r))
  }

  ghost predicate Waits(t: seq<Event>, from: int, graceful: int, killTimeout: int, r: Result<StopResult, StopError>) {
    exists n :: WaitsFor(t, n, from, graceful, killTimeout, r)
  }

  /** SIGINT is the first `k` events. */
  ghost predicate InterruptsBy(t: seq<Event>, k: int, graceful: int, killTimeout: int, r: Result<StopResult, StopError>) {
    && 0 < k <= |t|
    && (|| (Sends(t[..k], Interrupt, false) && k == |t| && r == Err(SignalFailed))
        || (Sends(t[..k], Interrupt, true) && Waits(t[k..], t[k - 1].at, graceful, killTimeout, r)))
  }

  /** The trace and the result of one whole call on a usable identity. */
  ghost predicate Stops(t: seq<Event>, graceful: int, killTimeout: int, r: Result<StopResult, StopError>) {
    && t != [] && IsLook(t[0])
    && (t[0].kind.Gone? ==> |t| == 1 && r == Ok(StopResult(None)))
    && (t[0].kind.Refuted? ==> |t| == 1 && r == Err(Refusal(t[0])))
    && (t[0].kind.Identified? ==> exists k :: InterruptsBy(t[1..], k, graceful, killTimeout, r))
  }

  lemma WatchesEnd(w: seq<Event>, from: int, timeout: int)
    requires Watches(w, from, timeout)
    ensures w != [] && IsLook(w[|w| - 1])
  {
  }

  lemma KillsEnd(t: seq<Event>, killTimeout: int, r: Result<StopResult, StopError>)
    requires Kills(t, killTimeout, r)
    ensures t != [] && (r.Ok? <==> t[|t| - 1].kind.Gone?)
    ensures r == Err(SignalFailed) ==> exists i :: 0 <= i < |t| && IsSignal(t[i].kind) && !t[i].ok
  {
    if t[0].kind.Identified? {
      var k :| KillsBy(t[1..], k, t[0].at, killTimeout, r);
      var rest := t[1..];
      if Sends(rest[..k], Kill, true) {
        WatchesEnd(rest[k..], rest[k - 1].at, killTimeout);
      } else {
        assert t[1] == rest[..k][0];
      }
      hide Watches;
    }
  }

  lemma WaitsEnd(t: seq<Event>, k: int, from: int, graceful: int, killTimeout: int, r: Result<StopResult, StopError>)
    requires WaitsFor(t, k, from, graceful, killTimeout, r)
    ensures t != [] && (r.Ok? <==> t[|t| - 1].kind.Gone?)
    ensures r == Err(SignalFailed) ==> exists i :: 0 <= i < |t| && IsSignal(t[i].kind) && !t[i].ok
  {
    WatchesEnd(t[..k], from, graceful);
    hide Watches, Kills;
    if t[k - 1].kind.Identified? {
      KillsEnd(t[k..], killTimeout, r);
      if r == Err(SignalFailed) {
        var i :| 0 <= i < |t| - k && IsSignal(t[k..][i].kind) && !t[k..][i].ok;
        assert t[k + i] == t[k..][i];
      }
    }
  }

  lemma InterruptsEnd(t: seq<Event>, k: int, graceful: int, killTimeout: int, r: Result<StopResult, StopError>)
    requires InterruptsBy(t, k, graceful, killTimeout, r)
    ensures t != [] && t[0].kind.Interrupt? && (r.Ok? <==> t[|t| - 1].kind.Gone?)
    ensures r == Err(SignalFailed) ==> exists i :: 0 <= i < |t| && IsSignal(t[i].kind) && !t[i].ok
  {
    assert t[0] == t[..k][0];
    if Sends(t[..k], Interrupt, true) {
      var n :| WaitsFor(t[k..], n, t[k - 1].at, graceful, killTimeout, r);
      WaitsEnd(t[k..], n, t[k - 1].at, graceful, killTimeout, r);
      hide WaitsFor;
      if r == Err(SignalFailed) {
        var i :| 0 <= i < |t| - k && IsSignal(t[k..][i].kind) && !t[k..][i].ok;
        assert t[k + i] == t[k..][i];
      }
    } else {
      assert t[..k] == t;
    }
  }

  /** A container that is identified is sent SIGINT next; success is reported exactly when it
      was last seen gone, a failed signal only when one was not delivered. */
  lemma StopsMeans(t: seq<Event>, graceful: int, killTimeout: int, r: Result<StopResult, StopError>)
    requires Stops(t, graceful, killTimeout, r)
    ensures t[0].kind.Identified? ==> |t| > 1 && t[1].kind.Interrupt?
    ensures r.Ok? <==> t[|t| - 1].kind.Gone?
    ensures r == Err(SignalFailed) ==> exists i :: 0 <= i < |t| && IsSignal(t[i].kind) && !t[i].ok
  {
    if t[0].kind.Identified? {
      var k :| InterruptsBy(t[1..], k, graceful, killTimeout, r);
      InterruptsEnd(t[1..], k, graceful, killTimeout, r);
      hide InterruptsBy;
      if r == Err(SignalFailed) {
        var i :| 0 <= i < |t| - 1 && IsSignal(t[1..][i].kind) && !t[1..][i].ok;
        assert t[1 + i] == t[1..][i];
      }
    }
  }

  method Inspect(d: Daemon) returns (status: Status, ghost seen: seq<Event>)
    modifies d
    ensures d.now >= old(d.now) && d.trace == old(d.trace) + seen
    ensures !Usable(d.config, d.identity) ==> seen == [] && status.Mismatch?
    ensures Usable(d.config, d.identity) ==> |seen| == 1 && seen[0].at == d.now && StatusFits(status, seen[0].kind)
    ensures Usable(d.config, d.identity) && seen[0].kind.Refuted? ==> (status.Mismatch? <==> seen[0].ok)
  {
    seen := [];
    if !Usable(d.config, d.identity) {
      return Mismatch("persisted Docker identity"), seen;
    }
    var reply := d.AskInspect();
    StatusIsSound(d.identity, reply);
    seen := [Event(ReplyKind(d.identity, reply), d.now, reply.Found?)];
    status := StatusOf(d.identity, reply);
  }

  /** A signal that fails because the container is gone counts as delivered. */
  method SendSignal(d: Daemon, signal: Signal) returns (ok: bool, ghost seen: seq<Event>)
    requires Usable(d.config, d.identity)
    modifies d
    ensures d.now >= old(d.now) && |seen| > 0 && d.trace == old(d.trace) + seen
    ensures seen[0].kind == SignalKind(signal, true) && old(d.now) <= seen[0].at <= d.now
    ensures Sends(seen, SignalKind(signal, true), ok) && seen[|seen| - 1].at == d.now
    ensures Quiet(seen[1..])
  {
    ok := d.AskKill(d.identity.containerId, signal);
    seen := [Event(SignalKind(signal, true), d.now, ok)];
    if !ok {
      var status;
      ghost var look;
      status, look := Inspect(d);
      seen := seen + look;
      ok := status.Stopped?;
    }
  }

  datatype Wait = ObservedGone | Expired | Broken(error: StopError)

  method WaitUntilStopped(d: Daemon, timeout: int, poll: nat) returns (r: Wait, ghost seen: seq<Event>)
    requires poll > 0 && Usable(d.config, d.identity)
    modifies d
    ensures d.trace == old(d.trace) + seen && d.now >= old(d.now)
    ensures Quiet(seen) && seen != [] && Watches(seen, old(d.now), timeout)
    ensures r.ObservedGone? ==> Ends(seen, Gone)
    ensures r.Broken? ==> r.error == Refusal(seen[|seen| - 1])
    ensures r.Expired? ==> NeverGone(seen) && Ends(seen, Identified) && d.now >= old(d.now) + timeout
    ensures r.Broken? ==> NeverGone(seen) && Ends(seen, Refuted)
  {
    var deadline := d.now + AtLeastZero(timeout);
    seen := [];
    while true
      invariant d.trace == old(d.trace) + seen && d.now >= old(d.now)
      invariant Quiet(seen) && NeverGone(seen) && |seen| % 2 == 0
      invariant forall i :: 0 <= i < |seen| ==> seen[i].kind == if i % 2 == 0 then Identified else Pause
      invariant forall i :: 0 <= i < |seen| && seen[i].kind.Identified? ==> seen[i].at < deadline
      decreases deadline - d.now
    {
      var status;
      ghost var look;
      status, look := Inspect(d);
      seen := seen + look;
      match status
      case Stopped => return ObservedGone, seen;
      case Mismatch(_) => return Broken(IdentityMismatch), seen;
      case Unavailable => return Broken(StatusUnavailable), seen;
      case Running =>
        if d.now >= deadline {
          return Expired, seen;
        }
        d.Delay(poll);
        seen := seen + [Event(Pause, d.now, true)];
    }
  }

  /** stop, once SIGINT was sent: `interrupted` is the trace up to it. */
  method WaitAndKill(d: Daemon, poll: nat, graceful: int, killTimeout: int, ghost interrupted: seq<Event>, ghost looked: seq<Event>)
    returns (r: Result<StopResult, StopError>, ghost rest: seq<Event>)
    requires poll > 0 && Usable(d.config, d.identity)
    requires d.trace == interrupted + looked && Quiet(looked)
    requires Ends(interrupted, Interrupt) && NeverKilled(interrupted) && Disciplined(interrupted, graceful)
    requires d.now >= interrupted[|interrupted| - 1].at
    modifies d
    ensures d.trace == old(d.trace) + rest
    ensures Waits(rest, old(d.now), graceful, killTimeout, r)
    ensures Disciplined(d.trace, graceful)
    ensures r.Ok? ==> r.value.signal.Some? && Ends(d.trace, Gone)
    ensures r == Ok(StopResult(Some(SigInt))) ==> NeverKilled(d.trace)
    ensures r == Ok(StopResult(Some(SigKill))) ==> !NeverKilled(d.trace)
    ensures r == Err(IdentityMismatch) || r == Err(StatusUnavailable) ==> Ends(d.trace, Refuted)
  {
    hide Watches, Kills;
    var wait;
    ghost var from := d.now;
    ghost var seen, quiet;
    wait, seen := WaitUntilStopped(d, graceful, poll);
    quiet := looked + seen;
    assert d.trace == interrupted + quiet;
    QuietKeepsDiscipline(interrupted, quiet, graceful);
    if !wait.Expired? {
      r := if wait.ObservedGone? then Ok(StopResult(Some(SigInt))) else Err(wait.error);
      assert seen[..|seen|] == seen && WaitsFor(seen, |seen|, from, graceful, killTimeout, r);
      return r, seen;
    }
    r, rest := CheckAndKill(d, poll, graceful, killTimeout, interrupted, quiet);
    ghost var all := seen + rest;
    assert all[..|seen|] == seen && all[|seen|..] == rest;
    assert WaitsFor(all, |seen|, from, graceful, killTimeout, r);
    rest := all;
    assert d.trace == interrupted + looked + rest;
  }

  /** The second check, and SIGKILL when the container is still identified. */
  method CheckAndKill(d: Daemon, poll: nat, graceful: int, killTimeout: int, ghost interrupted: seq<Event>, ghost waited: seq<Event>)
    returns (r: Result<StopResult, StopError>, ghost rest: seq<Event>)
    requires poll > 0 && Usable(d.config, d.identity)
    requires d.trace == interrupted + waited && Quiet(waited)
    requires Ends(interrupted, Interrupt) && NeverKilled(interrupted) && Disciplined(interrupted, graceful)
    requires d.now >= interrupted[|interrupted| - 1].at + graceful
    modifies d
    ensures d.trace == interrupted + waited + rest && Kills(rest, killTimeout, r)
    ensures Disciplined(d.trace, graceful)
    ensures r.Ok? ==> r.value.signal.Some? && Ends(d.trace, Gone)
    ensures r == Ok(StopResult(Some(SigInt))) ==> NeverKilled(d.trace)
    ensures r == Ok(StopResult(Some(SigKill))) ==> !NeverKilled(d.trace)
    ensures r == Err(IdentityMismatch) || r == Err(StatusUnavailable) ==> Ends(d.trace, Refuted)
  {
    hide SignalsAreChecked, KillsAreLastResort, KillsBy;
    var status;
    ghost var look;
    status, look := Inspect(d);
    ghost var quiet := waited + look;
    assert d.trace == interrupted + quiet;
    QuietKeepsDiscipline(interrupted, quiet, graceful);
    match status
    case Mismatch(_) => return Err(IdentityMismatch), look;
    case Unavailable => return Err(StatusUnavailable), look;
    case Stopped => return Ok(StopResult(Some(SigInt))), look;
    case Running =>
      r, rest := Terminate(d, poll, graceful, killTimeout, interrupted, quiet);
      assert (look + rest)[1..] == rest;
      rest := look + rest;
  }

  method Terminate(d: Daemon, poll: nat, graceful: int, killTimeout: int, ghost interrupted: seq<Event>, ghost waited: seq<Event>)
    returns (r: Result<StopResult, StopError>, ghost rest: seq<Event>)
    requires poll > 0 && Usable(d.config, d.identity)
    requires d.trace == interrupted + waited && Quiet(waited) && Ends(waited, Identified)
    requires Ends(interrupted, Interrupt) && Disciplined(interrupted, graceful)
    requires d.now >= interrupted[|interrupted| - 1].at + graceful
    modifies d
    ensures d.trace == interrupted + waited + rest
    ensures exists k :: KillsBy(rest, k, old(d.now), killTimeout, r)
    ensures Disciplined(d.trace, graceful) && !NeverKilled(d.trace)
    ensures r.Ok? ==> r == Ok(StopResult(Some(SigKill))) && Ends(d.trace, Gone)
    ensures r == Err(IdentityMismatch) || r == Err(StatusUnavailable) ==> Ends(d.trace, Refuted)
  {
    hide SignalsAreChecked, KillsAreLastResort, Watches, Sends;
    ghost var from := d.now;
    var sent;
    ghost var seen;
    sent, seen := SendSignal(d, SigKill);
    ghost var killed := interrupted + waited + [seen[0]];
    KillKeepsDiscipline(interrupted, waited, seen[0], graceful);
    assert d.trace == killed + seen[1..];
    if !sent {
      QuietKeepsDiscipline(killed, seen[1..], graceful);
      assert seen[0] in d.trace;
      assert seen[..|seen|] == seen && KillsBy(seen, |seen|, from, killTimeout, Err(SignalFailed));
      return Err(SignalFailed), seen;
    }
    ghost var last;
    r, last := AwaitEnd(d, poll, killTimeout);
    rest := seen + last;
    KillsByWait(seen, last, from, killTimeout, r);
    hide KillsBy;
    assert d.trace == killed + (seen[1..] + last) == interrupted + waited + rest;
    QuietKeepsDiscipline(killed, seen[1..] + last, graceful);
    assert seen[0] in d.trace;
  }

  lemma KillsByWait(seen: seq<Event>, last: seq<Event>, from: int, killTimeout: int, r: Result<StopResult, StopError>)
    requires seen != [] && last != [] && Sends(seen, Kill, true) && Watches(last, seen[|seen| - 1].at, killTimeout)
    requires Reports(last[|last| - 1], SigKill, r) && (last[|last| - 1].kind.Identified? ==> r == Err(DidNotTerminate))
    ensures KillsBy(seen + last, |seen|, from, killTimeout, r)
  {
    hide Sends, Watches;
    var t := seen + last;
    assert t[..|seen|] == seen && t[|seen|..] == last;
  }

  /** The last wait, once SIGKILL was delivered. */
  method AwaitEnd(d: Daemon, poll: nat, killTimeout: int) returns (r: Result<StopResult, StopError>, ghost last: seq<Event>)
    requires poll > 0 && Usable(d.config, d.identity)
    modifies d
    ensures d.trace == old(d.trace) + last && last != [] && Quiet(last) && Watches(last, old(d.now), killTimeout)
    ensures Reports(last[|last| - 1], SigKill, r) && (last[|last| - 1].kind.Identified? ==> r == Err(DidNotTerminate))
    ensures r.Ok? ==> r == Ok(StopResult(Some(SigKill))) && Ends(last, Gone)
    ensures r == Err(IdentityMismatch) || r == Err(StatusUnavailable) ==> Ends(last, Refuted)
    ensures r != Err(SignalFailed)
  {
    hide Watches;
    var wait;
    wait, last := WaitUntilStopped(d, killTimeout, poll);
    match wait
    case ObservedGone => return Ok(StopResult(Some(SigKill))), last;
    case Expired => return Err(DidNotTerminate), last;
    case Broken(error) => return Err(error), last;
  }

  /** `stop` of the Docker recording runtime. */
  method StopContainer(d: Daemon, poll: nat, graceful: int, killTimeout: int) returns (r: Result<StopResult, StopError>)
    requires poll > 0 && d.trace == []
    modifies d
    ensures Usable(d.config, d.identity) ==> Stops(d.trace, graceful, killTimeout, r)
    ensures d.trace != [] <==>
      && d.identity.backend == "docker" && |d.identity.containerId| == 64 && (forall c :: c in d.identity.containerId ==> IsHexDigit(c))
      && d.identity.imageRef == d.config.imageRef && d.identity.imageDigest == d.config.imageDigest
    ensures Disciplined(d.trace, graceful)
    ensures r.Ok? ==> Ends(d.trace, Gone)
    ensures r == Ok(StopResult(None)) ==> Quiet(d.trace)
    ensures r == Ok(StopResult(Some(SigInt))) ==> NeverKilled(d.trace)
    ensures r == Ok(StopResult(Some(SigKill))) ==> !NeverKilled(d.trace)
    ensures !Usable(d.config, d.identity) ==> r == Err(IdentityMismatch) && d.trace == []
    ensures Usable(d.config, d.identity) && (r == Err(IdentityMismatch) || r == Err(StatusUnavailable)) ==> Ends(d.trace, Refuted)
  {
    hide InterruptsBy;
    var status;
    ghost var seen;
    status, seen := Inspect(d);
    ghost var check := d.trace;
    assert check == seen;
    match status
    case Stopped => return Ok(StopResult(None));
    case Mismatch(_) => return Err(IdentityMismatch);
    case Unavailable => return Err(StatusUnavailable);
    case Running =>
      ghost var rest;
      r, rest := Interrupted(d, poll, graceful, killTimeout, check);
      assert d.trace[1..] == rest;
  }

  method Interrupted(d: Daemon, poll: nat, graceful: int, killTimeout: int, ghost check: seq<Event>)
    returns (r: Result<StopResult, StopError>, ghost rest: seq<Event>)
    requires poll > 0 && Usable(d.config, d.identity) && d.trace == check && Quiet(check) && Ends(check, Identified)
    modifies d
    ensures d.trace == check + rest
    ensures exists k :: InterruptsBy(rest, k, graceful, killTimeout, r)
    ensures Disciplined(d.trace, graceful)
    ensures r.Ok? ==> r.value.signal.Some? && Ends(d.trace, Gone)
    ensures r == Ok(StopResult(Some(SigInt))) ==> NeverKilled(d.trace)
    ensures r == Ok(StopResult(Some(SigKill))) ==> !NeverKilled(d.trace)
    ensures r == Err(IdentityMismatch) || r == Err(StatusUnavailable) ==> Ends(d.trace, Refuted)
  {
    hide Sends, Waits;
    var sent;
    ghost var seen;
    sent, seen := SendSignal(d, SigInt);
    ghost var interrupted := check + [seen[0]];
    assert d.trace == interrupted + seen[1..];
    InterruptKeepsDiscipline(check, seen[0], graceful);
    QuietKeepsDiscipline(interrupted, seen[1..], graceful);
    if !sent {
      assert seen[..|seen|] == seen && InterruptsBy(seen, |seen|, graceful, killTimeout, Err(SignalFailed));
      return Err(SignalFailed), seen;
    }
    r, rest := WaitAndKill(d, poll, graceful, killTimeout, interrupted, seen[1..]);
    ghost var all := seen + rest;
    assert all[..|seen|] == seen && all[|seen|..] == rest;
    assert InterruptsBy(all, |seen|, graceful, killTimeout, r);
    rest := all;
  }
}
