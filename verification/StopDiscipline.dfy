/**
 What both identity-checked stop routines of the camera edge owe the process they stop
 (kamrui-media-edge/camera-api/recording-safety.js, docker-recording-runtime.js), as a
 property of the events that happened, in order.
 */
module StopDiscipline {
  /** `Identified` and `Refuted` are checks of the full identity, `Gone` and `Present`
      observations, `Stray` a signal to anything but the recording. */
  datatype Kind = Identified | Refuted | Interrupt | Kill | Stray | Gone | Present | Pause

  /** `ok` says of a signal that it was delivered, and of a refuted check that there was an
      identity to compare. */
  datatype Event = Event(kind: Kind, at: int, ok: bool)

  datatype Signal = SigInt | SigKill

  predicate IsSignal(k: Kind) {
    k.Interrupt? || k.Kill? || k.Stray?
  }

  function SignalKind(signal: Signal, onTarget: bool): Kind {
    if !onTarget then Stray else if signal.SigInt? then Interrupt else Kill
  }

  lemma SignalKindIff(signal: Signal, onTarget: bool)
    ensures SignalKind(signal, onTarget).Stray? <==> !onTarget
    ensures SignalKind(signal, onTarget).Interrupt? <==> onTarget && signal == SigInt
    ensures SignalKind(signal, onTarget).Kill? <==> onTarget && signal == SigKill
    ensures IsSignal(SignalKind(signal, onTarget))
  {
  }

  /** Each signal goes to the recording and directly follows a full match. */
  ghost predicate SignalsAreChecked(t: seq<Event>) {
    forall i :: 0 <= i < |t| && IsSignal(t[i].kind) ==> !t[i].kind.Stray? && i > 0 && t[i - 1].kind.Identified?
  }

  /** Event `j` is the SIGINT whose graceful wait had expired before event `i`. */
  ghost predicate ExpiredBefore(t: seq<Event>, j: int, i: int, graceful: int) {
    0 <= j < i < |t| && t[j].kind.Interrupt? && t[i].at >= t[j].at + graceful
  }

  /** SIGKILL only after a SIGINT and an expired wait. */
  ghost predicate KillsAreLastResort(t: seq<Event>, graceful: int) {
    forall i :: 0 <= i < |t| && t[i].kind.Kill? ==> exists j :: ExpiredBefore(t, j, i, graceful)
  }

  ghost predicate Ends(t: seq<Event>, kind: Kind) {
    t != [] && t[|t| - 1].kind == kind
  }

  ghost predicate NeverKilled(t: seq<Event>) {
    forall e :: e in t ==> !e.kind.Kill?
  }

  ghost predicate Disciplined(t: seq<Event>, graceful: int) {
    SignalsAreChecked(t) && KillsAreLastResort(t, graceful)
  }

  /** Observations only. */
  ghost predicate Quiet(t: seq<Event>) {
    forall e :: e in t ==> !IsSignal(e.kind)
  }

  ghost predicate NeverGone(t: seq<Event>) {
    forall e :: e in t ==> !e.kind.Gone?
  }

  lemma QuietKeepsDiscipline(t: seq<Event>, more: seq<Event>, graceful: int)
    requires Disciplined(t, graceful) && Quiet(more)
    ensures Disciplined(t + more, graceful)
  {
    var u := t + more;
    forall i | |t| <= i < |u| ensures !IsSignal(u[i].kind) {
      assert u[i] == more[i - |t|];
      assert u[i] in more;
    }
    forall i | 0 <= i < |t| && t[i].kind.Kill? ensures exists j :: ExpiredBefore(u, j, i, graceful) {
      var j :| ExpiredBefore(t, j, i, graceful);
      assert ExpiredBefore(u, j, i, graceful);
    }
  }

  lemma InterruptKeepsDiscipline(t: seq<Event>, interrupt: Event, graceful: int)
    requires Quiet(t) && Ends(t, Identified) && interrupt.kind.Interrupt?
    ensures Disciplined(t + [interrupt], graceful)
  {
    var u := t + [interrupt];
    assert forall i :: 0 <= i < |t| ==> u[i] in t;
  }

  /** `before` ends with SIGINT, `wait` is the expired wait up to the second check. */
  lemma KillKeepsDiscipline(before: seq<Event>, wait: seq<Event>, kill: Event, graceful: int)
    requires Disciplined(before, graceful) && Ends(before, Interrupt)
    requires Quiet(wait) && Ends(wait, Identified)
    requires kill.kind.Kill? && kill.at >= before[|before| - 1].at + graceful
    ensures Disciplined(before + wait + [kill], graceful)
  {
    QuietKeepsDiscipline(before, wait, graceful);
    var t := before + wait;
    var u := t + [kill];
    assert u[|t| - 1] == wait[|wait| - 1];
    assert ExpiredBefore(u, |before| - 1, |t|, graceful);
    forall i | 0 <= i < |u| && u[i].kind.Kill? ensures exists j :: ExpiredBefore(u, j, i, graceful) {
      if i < |t| {
        assert t[i].kind.Kill?;
        var j :| ExpiredBefore(t, j, i, graceful);
        assert ExpiredBefore(u, j, i, graceful);
      }
    }
    forall i | 0 <= i < |u| && IsSignal(u[i].kind)
      ensures !u[i].kind.Stray? && i > 0 && u[i - 1].kind.Identified?
    {
      assert i < |t| ==> u[i] == t[i];
    }
  }
}
