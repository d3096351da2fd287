/**
 What becomes of a recording: which way each decision of RecordingIntent goes, and that a
 recording on file can always be brought to its finalization
 (kamrui-media-edge/camera-api/server.js).
 */
module RecordingRecovery {
  import opened Wrappers
  import opened RecordingIntent

  // --- The decisions ---

  predicate Interrupted(v: View) {
    v.session.Some? && v.phase.Finalizing?
  }

  /** A state file that names a recording to look for. */
  predicate NamesRecording(v: View) {
    !Interrupted(v) && v.recording && v.session.Some? && v.identity.Some?
  }

  /** A restart resumes an interrupted finalization, asks about a recording of its own
      supervisor, holds on to one of another supervisor, and is free otherwise. */
  lemma BootDecides(st: State, supervisor: Supervisor, written: bool)
    requires st.process.activity.Down?
    ensures Enabled(st, Boot(supervisor, written))
    ensures var up := Step(st, Boot(supervisor, written));
      && up.active == st.active && up.process.configured == supervisor && !up.process.monitored && !up.process.background
      && (st.file.None? ==> up.file.None? && up.process.activity.Quiet? && up.process.memory == NOTHING)
      && (st.file.Some? && Interrupted(st.file.value) ==>
            && up.process.activity.EnteringFinalization? && up.process.memory == st.file.value.(recording := false) && up.file == st.file)
      && (st.file.Some? && NamesRecording(st.file.value) && st.file.value.identity.value.supervisor == supervisor ==>
            up.process.activity.Reconciling? && up.process.memory == st.file.value.(phase := RecoveryRequired) && up.file == st.file)
      && (st.file.Some? && NamesRecording(st.file.value) && st.file.value.identity.value.supervisor != supervisor ==>
            up.process.activity.Quiet? && up.process.memory == st.file.value.(phase := Unverified) && up.file == st.file)
      && (st.file.Some? && !Interrupted(st.file.value) && !NamesRecording(st.file.value) ==>
            up.process.activity.Quiet? && up.process.memory == NOTHING && up.file == (if written then None else st.file))
  {
  }

  /** The monitor leaves a running unit and one it cannot see alone; one that has stopped it
      finalizes, and no longer monitors. */
  lemma TickDecides(st: State, answer: Answer)
    requires Enabled(st, Tick(answer))
    ensures var after := Step(st, Tick(answer));
      if answer.Inactive?
      then after == st.(process := st.process.(memory := st.process.memory.(recording := false), monitored := false, activity := EnteringFinalization))
      else after == st
  {
  }

  /** After re-adoption asked: an active unit is watched again, one that left media is finalized,
      one without is dropped, and what cannot be told is left for an operator. */
  lemma ReconciliationDecides(st: State, classification: Classification, answer: Answer, written: bool)
    requires Enabled(st, Reconciled(classification, answer, written))
    ensures var after := Step(st, Reconciled(classification, answer, written));
      && after.active == st.active && after.process.memory.session == st.process.memory.session
      && (classification.ClassActive? && !answer.Unclear? ==>
            && after.process.monitored && after.process.activity.Quiet? && after.process.memory.recording == st.process.memory.recording
            && after.process.memory.phase.Recording? && after.file == st.file)
      && (classification.ClassWithMedia? ==>
            after.process.activity.EnteringFinalization? && after.file == (if written then None else st.file))
      && (classification.ClassWithoutMedia? ==>
            && after.process.activity.Quiet? && !after.process.memory.recording && after.process.memory.phase.Free?
            && after.file == (if written then None else st.file))
      && (classification.ClassUnknown? || (classification.ClassActive? && answer.Unclear?) ==>
            after == st.(process := st.process.(activity := Quiet)))
  {
  }

  lemma RecoveryDecides(st: State, answer: Answer, written: bool)
    requires Enabled(st, Recovered(answer, written))
    ensures var after := Step(st, Recovered(answer, written));
      && after.active == st.active && after.process.memory.session == st.process.memory.session
      && (answer.Active? ==>
            after.process.monitored && after.process.activity.Quiet? && after.process.memory.phase.Recording? && after.file == st.file)
      && (answer.Inactive? ==> after.process.activity.EnteringFinalization? && after.file == (if written then None else st.file))
      && (answer.Unclear? ==> after == st.(process := st.process.(activity := Quiet)))
  {
  }

  /** Entering finalization is written before anything else happens; if it cannot be written
      nothing goes on in the background. */
  lemma FinalizationIsOnFile(st: State, written: bool)
    requires Enabled(st, EnterFinalization(written))
    ensures var after := Step(st, EnterFinalization(written));
      && after.active == st.active && after.process.background == written && after.process.activity.Quiet?
      && after.process.memory.session == st.process.memory.session && !after.process.memory.recording
      && (written ==> after.file == Some(after.process.memory) && after.file.value.phase.Finalizing?)
      && (!written ==> after.file == st.file)
  {
  }

  /** A finalization that ends well leaves nothing on file, one that fails says so. */
  lemma FinalizationEnds(st: State, ok: bool, written: bool)
    requires Enabled(st, FinishFinalization(ok, written))
    ensures var after := Step(st, FinishFinalization(ok, written));
      && after.active == st.active && !after.process.background
      && (ok && written ==> after.file.None?)
      && (ok ==> after.process.memory.session.None? && after.process.memory.phase.Free?)
      && (!ok ==> after.process.memory.phase.Failed? && after.process.memory.session == st.process.memory.session)
      && (!ok && written ==> after.file == Some(after.process.memory))
      && (!written ==> after.file == st.file)
  {
  }

  /** A start whose clean-up is confirmed leaves nothing behind; one whose stop request fails
      stays on file and is watched. */
  lemma WithdrawalDecides(st: State, reply: StopReply, running: bool, written: bool)
    requires Inv(st) && Enabled(st, Withdraw(reply, running, written))
    ensures var after := Step(st, Withdraw(reply, running, written));
      && (reply.Stopped? ==> after.active == map[] && after.process.activity.Quiet? && !after.process.memory.recording)
      && (reply.Stopped? && written ==> after.file.None?)
      && (reply.Failure? ==> after.process.monitored && after.process.memory == st.process.memory.(phase := RecoveryRequired))
      && (reply.Failure? && written ==> after.file == Some(after.process.memory))
  {
    if reply.Stopped? {
      var e := Withdraw(reply, running, written);
      assert Orderly(st, e);
      WithdrawKeepsInv(st, e);
    }
  }

  /** Nothing is asked of the supervisor before the intent is on file; without it the start is
      given up. */
  lemma StartDecides(st: State, s: Session, output: string, written: bool, cleared: bool)
    requires Enabled(st, Start(s, output, written, cleared))
    ensures var after := Step(st, Start(s, output, written, cleared));
      && after.active == st.active
      && (written ==>
            && after.process.activity.Requesting?
            && after.file == Some(View(true, Some(s), Some(Identity(st.process.configured, s, output)), Starting))
            && after.process.memory == after.file.value)
      && (!written ==>
            && after.process.activity.Quiet? && !after.process.memory.recording && after.process.memory.session.None?
            && after.file == (if cleared then None else st.file))
  {
  }

  /** Which way a start goes on: polling, withdrawing, saving that it runs, or giving up with
      the file cleared. */
  lemma LaunchDecides(st: State, outcome: StartOutcome, running: bool, written: bool)
    requires Enabled(st, Launch(outcome, running, written))
    ensures var after := Step(st, Launch(outcome, running, written));
      && (outcome == Requested(true) ==> after.process.activity.Confirming?)
      && (outcome == Requested(false) ==> after.process.activity.Withdrawing?)
      && (outcome.Confirmed? ==> after.process.activity.SavingStarted?)
      && (!GivenUp(outcome) ==> after.process.memory == st.process.memory && after.file == st.file)
      && (GivenUp(outcome) ==>
            && after.process.activity.Quiet? && !after.process.memory.recording
            && after.file == (if written then None else st.file))
  {
  }

  /** A recording is confirmed once its unit is seen active, and watched once that is on file;
      otherwise the unit is stopped again. */
  lemma ConfirmationDecides(st: State, answer: Answer, written: bool)
    ensures Enabled(st, Poll(answer)) ==>
      var after := Step(st, Poll(answer));
      && (answer.Active? ==> after == st.(process := st.process.(activity := SavingStarted)))
      && (answer.Inactive? ==> after == st)
      && (answer.Unclear? ==> after == st.(process := st.process.(activity := Withdrawing)))
    ensures Enabled(st, SaveStarted(written)) ==>
      var after := Step(st, SaveStarted(written));
      && after.process.memory == st.process.memory.(phase := Recording) && after.active == st.active
      && (written ==> after.process.monitored && after.process.activity.Quiet? && after.file == Some(after.process.memory))
      && (!written ==> after.process.activity.Undoing? && after.file == st.file)
  {
  }

  /** A recording that could not be saved is stopped: seen stopped it is dropped, otherwise it
      is kept and watched. */
  lemma UndoDecides(st: State, stopped: bool, running: bool, written: bool)
    requires Enabled(st, Undo(stopped, running, written))
    ensures var after := Step(st, Undo(stopped, running, written));
      && after.process.activity.Quiet?
      && (stopped ==> !after.process.memory.recording && after.file == (if written then None else st.file))
      && (!stopped ==>
            && after.process.monitored && after.process.memory == st.process.memory.(phase := RecoveryRequired)
            && after.file == (if written then Some(after.process.memory) else st.file))
  {
  }

  /** What a plain stop is answered: a stopped unit is finalized, one that is not goes on being
      recorded and watched, except that an emergency stop changes nothing. */
  lemma StopDecides(st: State, stopped: bool, running: bool)
    requires Enabled(st, StopAnswer(stopped, running))
    ensures var after := Step(st, StopAnswer(stopped, running));
      && after.file == st.file && after.process.memory.session == st.process.memory.session
      && (stopped ==> after.process.activity.EnteringFinalization? && !Runs(after, st.process.memory.session.value))
      && (!stopped && st.process.activity.emergency ==> after.process == st.process.(activity := Quiet))
      && (!stopped && !st.process.activity.emergency ==>
            after.process.monitored && after.process.activity.Quiet? && after.process.memory.recording && after.process.memory.phase.Recording?)
  {
  }

  // --- Every recording can be finalized ---

  /** An orderly run from `st` on which the session is entered for finalization, in `u`, and
      which ends in `end`. */
  ghost predicate Finalizes(st: State, s: Session, before: seq<Event>, u: State, after: seq<Event>, end: State) {
    && Reaches(st, before, u) && u.process.activity.EnteringFinalization? && u.process.memory.session == Some(s)
    && Reaches(u, after, end)
  }

  /** Nothing runs, nothing is on file, and a start is possible. */
  predicate Idle(st: State) {
    st.active == map[] && st.file.None? && st.process.activity.Quiet? && !st.process.memory.recording && !st.process.background
  }

  lemma FinalizationCompletes(u: State) returns (after: seq<Event>, end: State)
    requires u.process.activity.EnteringFinalization? && u.active == map[]
    ensures Reaches(u, after, end) && Idle(end)
  {
    var enter, finish := EnterFinalization(true), FinishFinalization(true, true);
    FinalizationIsOnFile(u, true);
    var entered := Step(u, enter);
    FinalizationEnds(entered, true, true);
    end := Step(entered, finish);
    NothingMore(end);
    after := Prepend(entered, finish, [], end);
    after := Prepend(u, enter, after, end);
  }

  lemma NothingMore(st: State)
    ensures Reaches(st, [], st)
  {
  }

  /** From the process being down and the unit gone. */
  lemma RestartFinalizes(st: State, s: Session)
    returns (before: seq<Event>, u: State, after: seq<Event>, end: State)
    requires st.process.activity.Down? && st.active == map[] && st.file.Some? && st.file.value.session == Some(s)
    requires Interrupted(st.file.value) || NamesRecording(st.file.value)
    ensures Finalizes(st, s, before, u, after, end) && Idle(end)
  {
    var supervisor := if st.file.value.identity.Some? then st.file.value.identity.value.supervisor else Systemd;
    var boot, recover := Boot(supervisor, true), Recovered(Inactive, true);
    BootDecides(st, supervisor, true);
    var up := Step(st, boot);
    if Interrupted(st.file.value) {
      u := up;
      NothingMore(u);
      before := Prepend(st, boot, [], u);
    } else {
      RecoveryDecides(up, Inactive, true);
      u := Step(up, recover);
      NothingMore(u);
      before := Prepend(up, recover, [], u);
      before := Prepend(st, boot, before, u);
    }
    after, end := FinalizationCompletes(u);
  }

  /** A crash, and then the unit ends: the process is down and nothing runs. */
  lemma ComesToRest(st: State) returns (events: seq<Event>, rest: State)
    requires Inv(st)
    ensures Reaches(st, events, rest)
    ensures rest.process.activity.Down? && rest.active == map[] && rest.file == st.file
  {
    var down := if st.process.activity.Down? then st else Step(st, Crash);
    rest := down;
    NothingMore(rest);
    events := [];
    if down.active != map[] {
      var s :| s in down.active;
      OneActive(down, s);
      rest := Step(down, UnitExits(s));
      NothingMore(rest);
      events := Prepend(down, UnitExits(s), [], rest);
    }
    if !st.process.activity.Down? {
      events := Prepend(st, Crash, events, rest);
    }
  }

  lemma OneActive(st: State, s: Session)
    requires Named(st) && s in st.active
    ensures st.active - {s} == map[]
  {
    forall t | t in st.active ensures t == s {
      assert Names(st.file.value, t, st.active[t]) && Names(st.file.value, s, st.active[s]);
    }
  }

  lemma {:induction false} Together(a: State, first: seq<Event>, b: State, second: seq<Event>, c: State)
    requires Reaches(a, first, b) && Reaches(b, second, c)
    ensures Reaches(a, first + second, c)
    decreases first
  {
    if first == [] {
      assert first + second == second;
    } else {
      assert (first + second)[1..] == first[1..] + second;
      Together(Step(a, first[0]), first[1..], b, second, c);
    }
  }

  /** Whatever the process was doing: a recording or an interrupted finalization that is on
      file can be brought to its finalization by orderly steps, and everything is idle then. */
  lemma EveryRecordingCanBeFinalized(st: State, s: Session)
    returns (before: seq<Event>, u: State, after: seq<Event>, end: State)
    requires Inv(st) && st.file.Some? && st.file.value.session == Some(s)
    requires Interrupted(st.file.value) || NamesRecording(st.file.value)
    ensures Finalizes(st, s, before, u, after, end) && Idle(end)
  {
    var events, rest := ComesToRest(st);
    before, u, after, end := RestartFinalizes(rest, s);
    Together(st, events, rest, before, u);
    before := events + before;
  }

  /** And without any crash: a recording that runs can be stopped, and is finalized. */
  lemma RunningRecordingCanBeStopped(st: State, s: Session, emergency: bool)
    returns (before: seq<Event>, u: State, after: seq<Event>, end: State)
    requires Inv(st) && st.process.activity.Quiet? && st.process.memory.recording && HasSubject(st.process)
    requires s in st.active && st.process.memory.identity.value.supervisor == st.process.configured
    ensures Finalizes(st, s, before, u, after, end) && Idle(end)
    ensures |before| == 2 && before[0] == if emergency then Emergency else Stop
  {
    var stop, answer := if emergency then Emergency else Stop, StopAnswer(true, false);
    StopKeepsInv(st, stop);
    var waiting := Step(st, stop);
    assert Runs(waiting, s);
    OneActive(waiting, s);
    u := Step(waiting, answer);
    assert u.active == map[];
    NothingMore(u);
    before := Prepend(waiting, answer, [], u);
    before := Prepend(st, stop, before, u);
    after, end := FinalizationCompletes(u);
  }
}
