/**
 Stopping a recording process by its verified identity
 (kamrui-media-edge/camera-api/recording-safety.js), against a process table that may
 change in any way between two calls.
 */
module ProcessStop {
  import opened Wrappers
  import opened StopDiscipline

  datatype ProcessIdentity = ProcessIdentity(
    pid: int, startTime: string, executable: string, commandHash: string, outputPath: Option<string>,
    sessionNonce: Option<string>, processGroup: int)

  datatype StopError = IdentityMismatch | NotGroupLeader | SignalFailed | IdentityUnreadable | DidNotTerminate

  /** String(null) is the text "null". */
  function Shown(value: Option<string>): string {
    if value.None? then "null" else value.value
  }

  /** processIdentityMatches: all seven fields, compared as strings. */
  predicate Matches(expected: ProcessIdentity, actual: ProcessIdentity) {
    && expected.pid == actual.pid && expected.startTime == actual.startTime
    && expected.executable == actual.executable && expected.commandHash == actual.commandHash
    && Shown(expected.outputPath) == Shown(actual.outputPath)
    && Shown(expected.sessionNonce) == Shown(actual.sessionNonce)
    && expected.processGroup == actual.processGroup
  }

  /** The host. Its answers depend on nothing but how many calls were made, which for
      one fixed caller is every possible behaviour. */
  class Host {
    const expected: ProcessIdentity
    const identities: nat -> Option<ProcessIdentity>
    const alive: nat -> bool
    const delivered: nat -> bool
    const lag: nat -> nat
    var calls: nat
    var now: int
    ghost var trace: seq<Event>

    constructor (
      expected: ProcessIdentity, identities: nat -> Option<ProcessIdentity>, alive: nat -> bool,
      delivered: nat -> bool, lag: nat -> nat, now: int)
      ensures this.expected == expected && this.now == now && trace == []
      ensures this.identities == identities && this.alive == alive && this.delivered == delivered && this.lag == lag
    {
      this.expected, this.identities, this.alive, this.delivered, this.lag := expected, identities, alive, delivered, lag;
      this.now, calls, trace := now, 0, [];
    }

    method ReadIdentity() returns (actual: Option<ProcessIdentity>)
      modifies this
      ensures now >= old(now)
      ensures trace == old(trace) +
        [Event(if actual.Some? && Matches(expected, actual.value) then Identified else Refuted, now, actual.Some?)]
    {
      now, calls := now + lag(calls), calls + 1;
      actual := identities(calls);
      trace := trace + [Event(if actual.Some? && Matches(expected, actual.value) then Identified else Refuted, now, actual.Some?)];
    }

    method SignalGroup(group: int, signal: Signal) returns (ok: bool)
      modifies this
      ensures now >= old(now)
      ensures trace == old(trace) + [Event(SignalKind(signal, group == expected.processGroup == expected.pid), now, ok)]
    {
      now, calls := now + lag(calls), calls + 1;
      ok := delivered(calls);
      trace := trace + [Event(SignalKind(signal, group == expected.processGroup == expected.pid), now, ok)];
    }

    method IsAlive() returns (answer: bool)
      modifies this
      ensures now >= old(now)
      ensures trace == old(trace) + [Event(if answer then Present else Gone, now, true)]
    {
      now, calls := now + lag(calls), calls + 1;
      answer := alive(calls);
      trace := trace + [Event(if answer then Present else Gone, now, true)];
    }

    method Delay(ms: nat)
      modifies this
      ensures now >= old(now) + ms
      ensures trace == old(trace) + [Event(Pause, now, true)]
    {
      now, calls := now + ms + lag(calls), calls + 1;
      trace := trace + [Event(Pause, now, true)];
    }
  }

  // --- What the trace of one call must be ---

  /** waitUntilGone: it looks, pauses and looks again, no longer once the process is gone, and
      past the deadline exactly once. */
  ghost predicate Polls(w: seq<Event>, from: int, timeout: int, gone: bool) {
    && |w| % 2 == 1 && w[|w| - 1].kind == (if gone then Gone else Present)
    && (forall i :: 0 <= i < |w| - 1 ==> w[i].kind == if i % 2 == 0 then Present else Pause)
    && (forall i :: 0 <= i < |w| - 2 && w[i].kind.Pause? ==> w[i].at < from + timeout)
    && (!gone ==> |w| > 1 && w[|w| - 2].at >= from + timeout)
  }

  function Refusal(check: Event): StopError {
    if check.ok then IdentityMismatch else IdentityUnreadable
  }

  /** From the second check on. */
  ghost predicate Kills(t: seq<Event>, killTimeout: int, r: Result<Signal, StopError>) {
    && t != [] && (t[0].kind.Identified? || t[0].kind.Refuted?)
    && (t[0].kind.Refuted? ==> |t| == 1 && r == Err(Refusal(t[0])))
    && (t[0].kind.Identified? ==> |t| > 1 && t[1].kind.Kill?)
    && (t[0].kind.Identified? && !t[1].ok ==> |t| == 2 && r == Err(SignalFailed))
    && (t[0].kind.Identified? && t[1].ok ==>
          || (Polls(t[2..], t[1].at, killTimeout, true) && r == Ok(SigKill))
          || (Polls(t[2..], t[1].at, killTimeout, false) && r == Err(DidNotTerminate)))
  }

  /** After SIGINT: the graceful wait is the first `k` events. */
  ghost predicate WaitsFor(t: seq<Event>, k: int, from: int, graceful: int, killTimeout: int, r: Result<Signal, StopError>) {
    && 0 < k <= |t|
    && (|| (Polls(t[..k], from, graceful, true) && k == |t| && r == Ok(SigInt))
        || (Polls(t[..k], from, graceful, false) && Kills(t[k..], killTimeout, r)))
  }

  ghost predicate Waits(t: seq<Event>, from: int, graceful: int, killTimeout: int, r: Result<Signal, StopError>) {
    exists k :: WaitsFor(t, k, from, graceful, killTimeout, r)
  }

  /** The trace and the result of one whole call: check, SIGINT, wait, check, SIGKILL, wait,
      each step taken whenever the ones before it let it. */
  ghost predicate Stops(t: seq<Event>, leader: bool, graceful: int, killTimeout: int, r: Result<Signal, StopError>) {
    && t != [] && (t[0].kind.Identified? || t[0].kind.Refuted?)
    && (t[0].kind.Refuted? ==> |t| == 1 && r == Err(Refusal(t[0])))
    && (t[0].kind.Identified? && !leader ==> |t| == 1 && r == Err(NotGroupLeader))
    && (t[0].kind.Identified? && leader ==> |t| > 1 && t[1].kind.Interrupt?)
    && (t[0].kind.Identified? && leader && !t[1].ok ==> |t| == 2 && r == Err(SignalFailed))
    && (t[0].kind.Identified? && leader && t[1].ok ==> Waits(t[2..], t[1].at, graceful, killTimeout, r))
  }

  lemma PollsMeans(w: seq<Event>, from: int, timeout: int, gone: bool)
    requires Polls(w, from, timeout, gone)
    ensures forall i :: 0 <= i < |w| ==> !IsSignal(w[i].kind) && !w[i].kind.Identified? && !w[i].kind.Refuted?
    ensures forall i :: 0 <= i < |w| && w[i].kind.Gone? ==> gone && i == |w| - 1
  {
  }

  /** No identity is confirmed without a signal following, no signal that fails is passed over,
      and success is reported exactly when the process was seen gone. */
  ghost predicate SeenThrough(t: seq<Event>, r: Result<Signal, StopError>) {
    && t != []
    && (forall i :: 0 <= i < |t| && t[i].kind.Identified? ==> i + 1 < |t| && IsSignal(t[i + 1].kind))
    && (forall i :: 0 <= i < |t| && IsSignal(t[i].kind) && !t[i].ok ==> i == |t| - 1)
    && (r == Err(SignalFailed) <==> IsSignal(t[|t| - 1].kind) && !t[|t| - 1].ok)
    && (r.Ok? <==> t[|t| - 1].kind.Gone?)
    && (r == Err(DidNotTerminate) <==> t[|t| - 1].kind.Present?)
    && r != Err(NotGroupLeader)
  }

  lemma KillsSeesThrough(t: seq<Event>, killTimeout: int, r: Result<Signal, StopError>)
    requires Kills(t, killTimeout, r)
    ensures SeenThrough(t, r)
  {
    if t[0].kind.Identified? && t[1].ok {
      var gone := r.Ok?;
      hide Polls;
      PollsMeans(t[2..], t[1].at, killTimeout, gone);
      PollsEnd(t[2..], t[1].at, killTimeout, gone);
      assert forall i :: 2 <= i < |t| ==> t[i] == t[2..][i - 2];
    }
  }

  lemma PollsEnd(w: seq<Event>, from: int, timeout: int, gone: bool)
    requires Polls(w, from, timeout, gone)
    ensures w != [] && w[|w| - 1].kind == (if gone then Gone else Present)
  {
  }

  lemma SeenThroughAfter(w: seq<Event>, t: seq<Event>, r: Result<Signal, StopError>)
    requires SeenThrough(t, r)
    requires forall i :: 0 <= i < |w| && w[i].kind.Identified? ==> i + 1 < |w| && IsSignal(w[i + 1].kind)
    requires forall i :: 0 <= i < |w| && IsSignal(w[i].kind) ==> w[i].ok
    ensures SeenThrough(w + t, r)
  {
    var u := w + t;
    assert u[|u| - 1] == t[|t| - 1];
    forall i | 0 <= i < |u| && u[i].kind.Identified? ensures i + 1 < |u| && IsSignal(u[i + 1].kind) {
      assert i >= |w| ==> u[i] == t[i - |w|] && IsSignal(t[i + 1 - |w|].kind);
    }
  }

  lemma WaitsSeesThrough(t: seq<Event>, from: int, graceful: int, killTimeout: int, r: Result<Signal, StopError>)
    requires Waits(t, from, graceful, killTimeout, r)
    ensures SeenThrough(t, r)
  {
    var k :| WaitsFor(t, k, from, graceful, killTimeout, r);
    assert t[..k] + t[k..] == t;
    var gone := k == |t| && r == Ok(SigInt) && Polls(t[..k], from, graceful, true);
    hide Polls, Kills;
    PollsMeans(t[..k], from, graceful, gone);
    PollsEnd(t[..k], from, graceful, gone);
    if gone {
      assert t[..k] == t;
    } else {
      KillsSeesThrough(t[k..], killTimeout, r);
      SeenThroughAfter(t[..k], t[k..], r);
    }
  }

  /** What every call that finds the recording in its own group comes to. */
  lemma StopsSeesThrough(t: seq<Event>, graceful: int, killTimeout: int, r: Result<Signal, StopError>)
    requires Stops(t, true, graceful, killTimeout, r)
    ensures SeenThrough(t, r)
  {
    if t[0].kind.Identified? && t[1].ok {
      WaitsSeesThrough(t[2..], t[1].at, graceful, killTimeout, r);
      SeenThroughAfter(t[..2], t[2..], r);
      hide SeenThrough, Waits;
      assert t == t[..2] + t[2..];
    }
  }

  /** Looks and pauses so far, all pauses but the last within the deadline. */
  ghost predicate Looking(seen: seq<Event>, deadline: int) {
    && |seen| % 2 == 0
    && (forall i :: 0 <= i < |seen| ==> seen[i].kind == if i % 2 == 0 then Present else Pause)
    && (forall i :: 0 <= i < |seen| - 1 && seen[i].kind.Pause? ==> seen[i].at < deadline)
  }

  lemma LooksAgain(seen: seq<Event>, deadline: int, look: Event, pause: Event)
    requires Looking(seen, deadline) && look.kind.Present? && pause.kind.Pause?
    requires seen != [] ==> seen[|seen| - 1].at < deadline
    ensures Looking(seen + [look] + [pause], deadline)
  {
  }

  lemma LooksLast(seen: seq<Event>, from: int, timeout: int, look: Event)
    requires Looking(seen, from + timeout) && (look.kind.Gone? || look.kind.Present?)
    requires seen != [] && !look.kind.Gone? ==> seen[|seen| - 1].at >= from + timeout
    requires look.kind.Gone? || seen != []
    ensures Polls(seen + [look], from, timeout, look.kind.Gone?)
  {
  }

  method WaitUntilGone(host: Host, timeout: int, poll: nat) returns (gone: bool, ghost seen: seq<Event>)
    requires poll > 0
    modifies host
    ensures host.trace == old(host.trace) + seen && host.now >= old(host.now)
    ensures Quiet(seen) && Polls(seen, old(host.now), timeout, gone)
    ensures gone ==> Ends(seen, Gone)
    ensures !gone ==> NeverGone(seen) && Ends(seen, Present) && host.now >= old(host.now) + timeout
  {
    hide Looking, Polls;
    ghost var from := host.now;
    var deadline := host.now + timeout;
    seen := [];
    NothingSeen(deadline);
    var first := true;
    while first || host.now < deadline
      invariant host.trace == old(host.trace) + seen && host.now >= old(host.now)
      invariant Quiet(seen) && NeverGone(seen) && (first <==> seen == []) && Looking(seen, deadline)
      invariant seen != [] ==> seen[|seen| - 1].at == host.now
      decreases first, deadline - host.now
    {
      first := false;
      ghost var before := seen;
      var alive := host.IsAlive();
      ghost var look := Event(if alive then Present else Gone, host.now, true);
      seen := seen + [look];
      if !alive {
        LooksLast(before, from, timeout, look);
        return true, seen;
      }
      host.Delay(poll);
      ghost var pause := Event(Pause, host.now, true);
      seen := seen + [pause];
      LooksAgain(before, deadline, look, pause);
    }
    var alive := host.IsAlive();
    ghost var look := Event(if alive then Present else Gone, host.now, true);
    LooksLast(seen, from, timeout, look);
    seen := seen + [look];
    gone := !alive;
  }

  lemma NothingSeen(deadline: int)
    ensures Looking([], deadline)
  {
  }

  /** stopValidatedProcess, once SIGINT was sent at the end of the trace. */
  method WaitAndKill(host: Host, poll: nat, graceful: int, killTimeout: int) returns (r: Result<Signal, StopError>, ghost rest: seq<Event>)
    requires poll > 0 && Ends(host.trace, Interrupt) && NeverKilled(host.trace) && NeverGone(host.trace)
    requires host.trace[|host.trace| - 1].at == host.now && Disciplined(host.trace, graceful)
    requires host.expected.processGroup == host.expected.pid
    modifies host
    ensures host.trace == old(host.trace) + rest && Waits(rest, old(host.now), graceful, killTimeout, r)
    ensures Disciplined(host.trace, graceful)
    ensures r.Ok? ==> Ends(host.trace, Gone)
    ensures r == Ok(SigInt) ==> NeverKilled(host.trace)
    ensures r == Ok(SigKill) ==> !NeverKilled(host.trace)
    ensures forall i, j :: 0 <= i < j < |host.trace| && host.trace[j].kind.Kill? ==> !host.trace[i].kind.Gone?
    ensures r == Err(IdentityMismatch) || r == Err(IdentityUnreadable) ==> Ends(host.trace, Refuted) && NeverKilled(host.trace)
    ensures r == Err(DidNotTerminate) ==> Ends(host.trace, Present) && !NeverKilled(host.trace)
    ensures r != Err(NotGroupLeader)
  {
    hide SignalsAreChecked, KillsAreLastResort, Polls, Kills;
    ghost var interrupted, from := host.trace, host.now;
    ghost var waited;
    var gone;
    gone, waited := WaitUntilGone(host, graceful, poll);
    QuietKeepsDiscipline(interrupted, waited, graceful);
    if gone {
      assert waited[..|waited|] == waited;
      assert WaitsFor(waited, |waited|, from, graceful, killTimeout, Ok(SigInt));
      return Ok(SigInt), waited;
    }
    r, rest := CheckAndKill(host, poll, graceful, killTimeout, interrupted, waited);
    ghost var all := waited + rest;
    assert all[..|waited|] == waited && all[|waited|..] == rest;
    assert WaitsFor(all, |waited|, from, graceful, killTimeout, r);
    rest := all;
    assert host.trace == interrupted + rest;
  }

  /** The second check and SIGKILL, once the graceful wait has expired. */
  method CheckAndKill(host: Host, poll: nat, graceful: int, killTimeout: int, ghost interrupted: seq<Event>, ghost waited: seq<Event>)
    returns (r: Result<Signal, StopError>, ghost rest: seq<Event>)
    requires poll > 0 && host.trace == interrupted + waited && Quiet(waited)
    requires Ends(interrupted, Interrupt) && NeverKilled(host.trace) && NeverGone(host.trace)
    requires Disciplined(interrupted, graceful) && host.now >= interrupted[|interrupted| - 1].at + graceful
    requires host.expected.processGroup == host.expected.pid
    modifies host
    ensures host.trace == interrupted + waited + rest && Kills(rest, killTimeout, r)
    ensures Disciplined(host.trace, graceful)
    ensures r.Ok? ==> r == Ok(SigKill) && Ends(host.trace, Gone) && !NeverKilled(host.trace)
    ensures forall i, j :: 0 <= i < j < |host.trace| && host.trace[j].kind.Kill? ==> !host.trace[i].kind.Gone?
    ensures r == Err(IdentityMismatch) || r == Err(IdentityUnreadable) ==> Ends(host.trace, Refuted) && NeverKilled(host.trace)
    ensures r == Err(DidNotTerminate) ==> Ends(host.trace, Present) && !NeverKilled(host.trace)
    ensures r != Err(NotGroupLeader)
  {
    hide SignalsAreChecked, KillsAreLastResort, Polls;
    var beforeKill := host.ReadIdentity();
    ghost var check := host.trace[|host.trace| - 1];
    rest := [check];
    assert host.trace == interrupted + (waited + rest);
    if beforeKill.None? || !Matches(host.expected, beforeKill.value) {
      QuietKeepsDiscipline(interrupted, waited + rest, graceful);
      return Err(if beforeKill.None? then IdentityUnreadable else IdentityMismatch), rest;
    }
    r, rest := Terminate(host, poll, graceful, killTimeout, interrupted, waited + rest);
    assert host.trace == interrupted + waited + ([check] + rest);
    assert ([check] + rest)[2..] == rest[1..];
    rest := [check] + rest;
  }

  /** SIGKILL and the last wait, for an identity that has just been checked again. */
  method Terminate(host: Host, poll: nat, graceful: int, killTimeout: int, ghost interrupted: seq<Event>, ghost waited: seq<Event>)
    returns (r: Result<Signal, StopError>, ghost rest: seq<Event>)
    requires poll > 0 && host.trace == interrupted + waited && Quiet(waited) && Ends(waited, Identified)
    requires Ends(interrupted, Interrupt) && NeverGone(host.trace)
    requires Disciplined(interrupted, graceful) && host.now >= interrupted[|interrupted| - 1].at + graceful
    requires host.expected.processGroup == host.expected.pid
    modifies host
    ensures host.trace == interrupted + waited + rest && rest != [] && rest[0].kind.Kill?
    ensures Disciplined(host.trace, graceful) && !NeverKilled(host.trace)
    ensures !rest[0].ok ==> |rest| == 1 && r == Err(SignalFailed)
    ensures rest[0].ok ==> Polls(rest[1..], rest[0].at, killTimeout, r.Ok?) && r in {Ok(SigKill), Err(DidNotTerminate)}
    ensures r.Ok? ==> Ends(host.trace, Gone)
    ensures r == Err(DidNotTerminate) ==> Ends(host.trace, Present)
    ensures forall i, j :: 0 <= i < j < |host.trace| && host.trace[j].kind.Kill? ==> !host.trace[i].kind.Gone?
  {
    hide SignalsAreChecked, KillsAreLastResort, Polls;
    var sent := host.SignalGroup(host.expected.processGroup, SigKill);
    ghost var killed := host.trace;
    ghost var kill := killed[|killed| - 1];
    assert killed == interrupted + waited + [kill];
    KillKeepsDiscipline(interrupted, waited, kill, graceful);
    if !sent {
      assert kill in host.trace;
      return Err(SignalFailed), [kill];
    }
    var gone;
    ghost var last;
    gone, last := WaitUntilGone(host, killTimeout, poll);
    QuietKeepsDiscipline(killed, last, graceful);
    assert kill in host.trace;
    assert ([kill] + last)[1..] == last;
    return if gone then Ok(SigKill) else Err(DidNotTerminate), [kill] + last;
  }

  /** stopValidatedProcess. */
  method StopValidatedProcess(host: Host, poll: nat, graceful: int, killTimeout: int) returns (r: Result<Signal, StopError>)
    requires poll > 0 && host.trace == []
    modifies host
    ensures Stops(host.trace, host.expected.processGroup == host.expected.pid, graceful, killTimeout, r)
    ensures host.expected.processGroup == host.expected.pid ==> SeenThrough(host.trace, r)
    ensures Disciplined(host.trace, graceful)
    ensures r.Ok? ==> Ends(host.trace, Gone)
    ensures r == Ok(SigInt) ==> NeverKilled(host.trace)
    ensures r == Ok(SigKill) ==> !NeverKilled(host.trace)
    ensures forall i, j :: 0 <= i < j < |host.trace| && host.trace[j].kind.Kill? ==> !host.trace[i].kind.Gone?
    ensures r == Err(NotGroupLeader) ==> Quiet(host.trace)
    ensures r == Err(IdentityMismatch) || r == Err(IdentityUnreadable) ==> Ends(host.trace, Refuted) && NeverKilled(host.trace)
    ensures r == Err(DidNotTerminate) ==> Ends(host.trace, Present) && !NeverKilled(host.trace)
  {
    hide Waits;
    var actual := host.ReadIdentity();
    ghost var check := host.trace;
    assert check == [check[0]];
    if actual.None? {
      return Err(IdentityUnreadable);
    }
    if !Matches(host.expected, actual.value) {
      return Err(IdentityMismatch);
    }
    if host.expected.processGroup != host.expected.pid {
      return Err(NotGroupLeader);
    }
    hide SignalsAreChecked, KillsAreLastResort, SeenThrough;
    var sent := host.SignalGroup(host.expected.processGroup, SigInt);
    InterruptKeepsDiscipline(check, host.trace[1], graceful);
    if !sent {
      return Err(SignalFailed);
    }
    ghost var rest;
    r, rest := WaitAndKill(host, poll, graceful, killTimeout);
    assert host.trace[2..] == rest;
    StopsSeesThrough(host.trace, graceful, killTimeout, r);
  }

  predicate NoTextNull(p: ProcessIdentity) {
    p.outputPath != Some("null") && p.sessionNonce != Some("null")
  }

  /** Comparing as strings is comparing all seven fields, unless a missing path or nonce
      meets the text "null". */
  lemma MatchesIff(expected: ProcessIdentity, actual: ProcessIdentity)
    requires NoTextNull(expected) && NoTextNull(actual)
    ensures Matches(expected, actual) <==> expected == actual
  {
    if Matches(expected, actual) {
      assert expected.outputPath.None? || expected.outputPath.value != "null";
    }
  }
}
