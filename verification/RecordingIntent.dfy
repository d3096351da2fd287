/**
 Durable recording intent (kamrui-media-edge/camera-api/server.js, recording-supervisor.js,
 docker-recording-runtime.js): start, failed start, stop, exit monitor, finalization and
 re-adoption as the steps of one machine. A step runs from one await to the next and makes
 at most one durable write; a crash may fall between any two.
 */
module RecordingIntent {
  import opened Wrappers

  type Session = string

  datatype Supervisor = Systemd | Docker

  datatype Identity = Identity(supervisor: Supervisor, session: Session, output: string)

  datatype Phase = Free | Starting | Recording | Stopping | Finalizing | RecoveryRequired | Unverified | Failed

  /** The part of the server's state that saveRecordingState writes. */
  datatype View = View(recording: bool, session: Option<Session>, identity: Option<Identity>, phase: Phase)

  /** A supervised unit or container that is active/running. */
  datatype Unit = Unit(supervisor: Supervisor, output: string)

  /** What the process is in the middle of. */
  datatype Activity =
    | Down
    | Quiet
    | Requesting
    | Confirming
    | SavingStarted
    | Withdrawing
    | Undoing
    | AwaitingStop(emergency: bool)
    | Reconciling
    | EnteringFinalization

  /** Lost in a crash. */
  datatype Process = Process(
    configured: Supervisor, memory: View, monitored: bool, activity: Activity, background: bool)

  /** `file` is durable; `active` belongs to the host. */
  datatype State = State(process: Process, file: Option<View>, active: map<Session, Unit>)

  /** An answer about a unit: error, timeout and identity mismatch are all `Unclear`. */
  datatype Answer = Active | Inactive | Unclear

  datatype Classification = ClassActive | ClassWithoutMedia | ClassWithMedia | ClassUnknown

  /** How far a start got. The environment or the image may be refused before anything is
      asked to run; systemd's request resolves or throws; `docker run` may fail, print no
      container id, or be followed by an inspection that does not show it running. */
  datatype StartOutcome =
    | RefusedBefore
    | Requested(accepted: bool)
    | RunRejected
    | IdUnreadable
    | NotConfirmed(inspection: Answer)
    | Confirmed

  /** What comes of a stop request that is only sent: the broker's confirmation, a
      connection closed without a reply, which resolves like one, or an error. */
  datatype StopReply = Stopped | Silent | Failure

  /** `written` says whether the durable write of the step succeeded, `running` whether the
      unit runs after a request whose outcome the caller may not see. */
  datatype Event =
    | Crash
    | UnitExits(exited: Session)
    | Boot(supervisor: Supervisor, written: bool)
    | Start(session: Session, output: string, written: bool, cleared: bool)
    | Launch(outcome: StartOutcome, running: bool, written: bool)
    | Poll(answer: Answer)
    | SaveStarted(written: bool)
    | Withdraw(reply: StopReply, running: bool, written: bool)
    | Undo(stopped: bool, running: bool, written: bool)
    | Stop
    | Emergency
    | StopAnswer(stopped: bool, running: bool)
    | Tick(answer: Answer)
    | Reconciled(classification: Classification, answer: Answer, written: bool)
    | Recovered(answer: Answer, written: bool)
    | EnterFinalization(written: bool)
    | FinishFinalization(ok: bool, written: bool)

  const NOTHING := View(false, None, None, Free)

  const DOWN := Process(Systemd, NOTHING, false, Down, false)

  const INITIAL := State(DOWN, None, map[])

  // --- Durable writes ---

  function Save(st: State, written: bool): State {
    if written then st.(file := Some(st.process.memory)) else st
  }

  function Clear(st: State, written: bool): State {
    if written then st.(file := None) else st
  }

  function Do(st: State, activity: Activity): State {
    st.(process := st.process.(activity := activity))
  }

  function Remember(st: State, memory: View): State {
    st.(process := st.process.(memory := memory))
  }

  function Watch(st: State): State {
    st.(process := st.process.(monitored := true, activity := Quiet))
  }

  // --- The supervisor's view ---

  /** Whether the configured supervisor sees the session running. */
  predicate Runs(st: State, s: Session) {
    s in st.active && st.active[s].supervisor == st.process.configured
  }

  /** An answer the supervisor may give: "inactive" is never a guess. */
  predicate MayAnswer(st: State, s: Session, answer: Answer) {
    match answer
    case Active => Runs(st, s)
    case Inactive => !Runs(st, s)
    case Unclear => true
  }

  /** A stop request: it affects only a unit of the configured supervisor. */
  function AfterStop(st: State, s: Session, running: bool): State {
    if Runs(st, s) && !running then st.(active := st.active - {s}) else st
  }

  /** stopSession; the Docker one refuses a foreign identity. */
  predicate MayStop(st: State, identity: Identity) {
    st.process.configured.Systemd? || identity.supervisor.Docker?
  }

  // --- Steps ---

  /** readoptRecording up to its first await. */
  function BootStep(st: State, supervisor: Supervisor, written: bool): State {
    var up := st.(process := Process(supervisor, NOTHING, false, Quiet, false));
    if st.file.None? then up
    else
      var data := st.file.value;
      if data.session.Some? && data.phase.Finalizing? then
        Do(Remember(up, data.(recording := false)), EnteringFinalization)
      else if !data.recording || data.session.None? || data.identity.None? then Clear(up, written)
      else if data.identity.value.supervisor != supervisor then Remember(up, data.(phase := Unverified))
      else Do(Remember(up, data.(phase := RecoveryRequired)), Reconciling)
  }

  /** The start is given up: nothing runs, says the code. */
  function AbandonStart(st: State, written: bool): State {
    Do(Clear(Remember(st, NOTHING.(phase := Failed)), written), Quiet)
  }

  function StartStep(st: State, s: Session, output: string, written: bool, cleared: bool): State {
    var identity := Identity(st.process.configured, s, output);
    if written then Do(Save(Remember(st, View(true, Some(s), Some(identity), Starting)), true), Requesting)
    else AbandonStart(st, cleared)
  }

  /** What the supervisor answers to `start`. systemd polls next, or asks for a stop; Docker
      has the container's identity, or gives the start up. */
  function LaunchStep(st: State, s: Session, output: string, outcome: StartOutcome, running: bool, written: bool): State {
    var launched := if running then st.(active := st.active[s := Unit(st.process.configured, output)]) else st;
    match outcome
    case Requested(accepted) => Do(launched, if accepted then Confirming else Withdrawing)
    case Confirmed => Do(launched, SavingStarted)
    case _ => AbandonStart(launched, written)
  }

  function PollStep(st: State, answer: Answer): State {
    match answer
    case Active => Do(st, SavingStarted)
    case Inactive => st
    case Unclear => Do(st, Withdrawing)
  }

  function SaveStartedStep(st: State, written: bool): State {
    var recording := Remember(st, st.process.memory.(phase := Recording));
    if written then Watch(Save(recording, true)) else Do(recording, Undoing)
  }

  /** After a start that failed: either the unit is taken to be gone, or the intent is kept
      and watched. */
  function SettleStart(st: State, s: Session, stopped: bool, running: bool, written: bool): State {
    var answered := AfterStop(st, s, running);
    if stopped then AbandonStart(answered, written)
    else Watch(Save(Remember(answered, answered.process.memory.(phase := RecoveryRequired)), written))
  }

  /** startSession's own clean-up: a stop request that resolves counts as a stop. */
  function WithdrawStep(st: State, s: Session, reply: StopReply, running: bool, written: bool): State {
    SettleStart(st, s, !reply.Failure?, running, written)
  }

  function BeginFinalization(st: State): State {
    var p := st.process;
    st.(process := p.(memory := p.memory.(recording := false), monitored := false, activity := EnteringFinalization))
  }

  function StopAnswerStep(st: State, s: Session, emergency: bool, stopped: bool, running: bool): State {
    var answered := AfterStop(st, s, running);
    if stopped then BeginFinalization(answered)
    else if emergency then Do(answered, Quiet)
    else Watch(Remember(answered, answered.process.memory.(recording := true, phase := Recording)))
  }

  function TickStep(st: State, answer: Answer): State {
    if answer.Inactive? then BeginFinalization(st) else st
  }

  /** Without a classification readoptRecording asks the supervisor about the session. */
  function RecoveredStep(st: State, answer: Answer, written: bool): State {
    match answer
    case Active => Watch(Remember(st, st.process.memory.(phase := Recording)))
    case Inactive => BeginFinalization(Clear(st, written))
    case Unclear => Do(st, Quiet)
  }

  function ReconciledStep(st: State, classification: Classification, answer: Answer, written: bool): State {
    match classification
    case ClassActive => (
      match answer
      case Active => Watch(Remember(st, st.process.memory.(phase := Recording)))
      case Inactive => Watch(Remember(st, st.process.memory.(phase := Recording, identity := None)))
      case Unclear => Do(st, Quiet))
    case ClassWithoutMedia => Do(Clear(Remember(st, st.process.memory.(recording := false, phase := Free)), written), Quiet)
    case ClassWithMedia => BeginFinalization(Clear(st, written))
    case ClassUnknown => Do(st, Quiet)
  }

  /** finalizeRecording up to its first await; the rest runs in the background. */
  function EnterFinalizationStep(st: State, written: bool): State {
    var entered := Do(Save(Remember(st, st.process.memory.(recording := false, phase := Finalizing)), written), Quiet);
    entered.(process := entered.process.(background := written))
  }

  function FinishFinalizationStep(st: State, ok: bool, written: bool): State {
    var memory := st.process.memory;
    var done := st.(process := st.process.(background := false));
    if ok then Clear(Remember(done, memory.(session := None, identity := None, phase := Free)), written)
    else Save(Remember(done, memory.(phase := Failed)), written)
  }

  /** Whether the process remembers a session to ask the supervisor about. */
  predicate HasSubject(p: Process) {
    p.memory.session.Some? && p.memory.identity.Some?
  }

  predicate AnswersFit(st: State, classification: Classification, answer: Answer)
    requires HasSubject(st.process)
  {
    var s := st.process.memory.session.value;
    && st.process.configured.Systemd?
    && (classification.ClassActive? ==> MayAnswer(st, s, answer))
    && (classification.ClassWithMedia? || classification.ClassWithoutMedia? ==> !Runs(st, s))
  }

  /** The outcomes each supervisor has, and when its unit can be running after them: not
      before it was asked for, nor when an inspection says it stopped. */
  predicate MayLaunch(configured: Supervisor, outcome: StartOutcome, running: bool) {
    match outcome
    case RefusedBefore => !running
    case Requested(_) => configured.Systemd?
    case RunRejected => configured.Docker?
    case IdUnreadable => configured.Docker?
    case NotConfirmed(inspection) => configured.Docker? && !inspection.Active? && (inspection.Inactive? ==> !running)
    case Confirmed => configured.Docker? && running
  }

  /** A start that failed without asking for the unit again. */
  predicate GivenUp(outcome: StartOutcome) {
    !outcome.Requested? && !outcome.Confirmed?
  }

  /** What the code and the host allow next. Start checks `memory.recording` only. */
  predicate Enabled(st: State, e: Event) {
    var p := st.process;
    match e
    case Crash => !p.activity.Down?
    case UnitExits(s) => s in st.active
    case Boot(_, _) => p.activity.Down?
    case Start(_, _, _, _) => p.activity.Quiet? && !p.memory.recording
    case Launch(outcome, running, _) => p.activity.Requesting? && HasSubject(p) && MayLaunch(p.configured, outcome, running)
    case Poll(answer) => p.activity.Confirming? && HasSubject(p) && MayAnswer(st, p.memory.session.value, answer)
    case SaveStarted(_) => p.activity.SavingStarted?
    case Withdraw(reply, running, _) => p.activity.Withdrawing? && HasSubject(p) && (reply.Stopped? ==> !running)
    case Undo(stopped, running, _) =>
      && p.activity.Undoing? && HasSubject(p)
      && (stopped ==> !running && MayStop(st, p.memory.identity.value))
    case Stop => p.activity.Quiet? && p.memory.recording && HasSubject(p)
    case Emergency =>
      p.activity.Quiet? && p.memory.recording && HasSubject(p) && p.memory.identity.value.supervisor == p.configured
    case StopAnswer(stopped, running) =>
      && p.activity.AwaitingStop? && HasSubject(p)
      && (stopped ==> !running && MayStop(st, p.memory.identity.value))
    case Tick(answer) =>
      p.activity.Quiet? && p.monitored && HasSubject(p) && MayAnswer(st, p.memory.session.value, answer)
    case Reconciled(classification, answer, _) =>
      p.activity.Reconciling? && HasSubject(p) && AnswersFit(st, classification, answer)
    case Recovered(answer, _) =>
      p.activity.Reconciling? && HasSubject(p) && MayAnswer(st, p.memory.session.value, answer)
    case EnterFinalization(_) => p.activity.EnteringFinalization?
    case FinishFinalization(_, _) => p.background
  }

  function Step(st: State, e: Event): State
    requires Enabled(st, e)
  {
    var memory := st.process.memory;
    match e
    case Crash => st.(process := DOWN)
    case UnitExits(s) => st.(active := st.active - {s})
    case Boot(supervisor, written) => BootStep(st, supervisor, written)
    case Start(s, output, written, cleared) => StartStep(st, s, output, written, cleared)
    case Launch(outcome, running, written) =>
      LaunchStep(st, memory.session.value, memory.identity.value.output, outcome, running, written)
    case Poll(answer) => PollStep(st, answer)
    case SaveStarted(written) => SaveStartedStep(st, written)
    case Withdraw(reply, running, written) => WithdrawStep(st, memory.session.value, reply, running, written)
    case Undo(stopped, running, written) => SettleStart(st, memory.session.value, stopped, running, written)
    case Stop =>
      Do(st.(process := st.process.(memory := memory.(recording := false, phase := Stopping), monitored := false)), AwaitingStop(false))
    case Emergency => Do(st, AwaitingStop(true))
    case StopAnswer(stopped, running) =>
      StopAnswerStep(st, memory.session.value, st.process.activity.emergency, stopped, running)
    case Tick(answer) => TickStep(st, answer)
    case Reconciled(classification, answer, written) => ReconciledStep(st, classification, answer, written)
    case Recovered(answer, written) => RecoveredStep(st, answer, written)
    case EnterFinalization(written) => EnterFinalizationStep(st, written)
    case FinishFinalization(ok, written) => FinishFinalizationStep(st, ok, written)
  }

  /** What the callers must provide: no start while a finalization runs in the background,
      no stop of a unit another supervisor started, no Docker start that fails with its
      container running, and no stop request after a failed start that goes unanswered
      with the unit running. */
  predicate Orderly(st: State, e: Event)
    requires Enabled(st, e)
  {
    match e
    case Start(_, _, _, _) => !st.process.background
    case Stop => st.process.memory.identity.value.supervisor == st.process.configured
    case Launch(outcome, running, _) => GivenUp(outcome) ==> !running
    case Withdraw(reply, running, _) => reply.Silent? && running ==> !Runs(st, st.process.memory.session.value)
    case _ => true
  }

  ghost predicate Reaches(st: State, events: seq<Event>, end: State)
    decreases events
  {
    if events == [] then st == end
    else Enabled(st, events[0]) && Orderly(st, events[0]) && Reaches(Step(st, events[0]), events[1..], end)
  }

  // --- The durable state names what runs ---

  /** What the next start needs to find the unit: session, supervisor and output path. */
  predicate Names(v: View, s: Session, u: Unit) {
    && v.recording && !v.phase.Finalizing?
    && v.session == Some(s) && v.identity == Some(Identity(u.supervisor, s, u.output))
  }

  /** The safety property. */
  ghost predicate Named(st: State) {
    forall s :: s in st.active ==> st.file.Some? && Names(st.file.value, s, st.active[s])
  }

  ghost predicate Remembered(st: State) {
    forall s :: s in st.active ==>
      st.process.memory.session == Some(s) && st.process.memory.identity == Some(Identity(st.active[s].supervisor, s, st.active[s].output))
  }

  predicate IsStarting(a: Activity) {
    a.Requesting? || a.Confirming? || a.SavingStarted? || a.Withdrawing? || a.Undoing?
  }

  /** Where the code relies on nothing running. */
  predicate ReliesOnNone(p: Process) {
    (p.activity.Quiet? && !p.memory.recording) || p.activity.EnteringFinalization?
  }

  /** The remembered session was started under the configured supervisor. */
  predicate OwnSubject(p: Process) {
    HasSubject(p) && p.memory.identity.value.supervisor == p.configured
  }

  predicate Watching(p: Process) {
    && p.memory.recording && (p.activity.Quiet? || p.activity == AwaitingStop(true))
    && (HasSubject(p) ==> OwnSubject(p))
  }

  predicate StartShape(p: Process) {
    && p.memory.recording && !p.memory.phase.Finalizing? && OwnSubject(p)
    && p.memory.identity.value.session == p.memory.session.value
  }

  /** A session is being started, recorded, stopped or re-adopted. */
  predicate IsRecording(p: Process) {
    IsStarting(p.activity) || p.activity.AwaitingStop? || p.activity.Reconciling? || (p.activity.Quiet? && p.memory.recording)
  }

  /** The remembered session is on file as being recorded. */
  predicate OnFile(st: State) {
    var memory := st.process.memory;
    memory.session.Some? && st.file.Some? && st.file.value.recording && st.file.value.session == memory.session
  }

  ghost predicate Inv(st: State) {
    && Named(st)
    && (!st.process.activity.Down? ==> Remembered(st))
    && (ReliesOnNone(st.process) ==> st.active == map[])
    && (IsStarting(st.process.activity) ==> StartShape(st.process))
    && (st.process.activity.Requesting? ==> st.file == Some(st.process.memory) && st.active == map[])
    && (st.process.activity.AwaitingStop? || st.process.activity.Reconciling? ==> OwnSubject(st.process))
    && (st.process.activity == AwaitingStop(true) || st.process.activity.Reconciling? ==> st.process.memory.recording)
    && (st.process.monitored ==> Watching(st.process))
    && (st.process.background ==> st.process.activity.Quiet? && !st.process.memory.recording)
    && (IsRecording(st.process) ==> OnFile(st))
  }

  lemma NothingActive(st: State)
    requires forall s :: s !in st.active
    ensures st.active == map[]
  {
  }

  lemma CrashKeepsInv(st: State)
    requires Inv(st)
    ensures Inv(st.(process := DOWN))
  {
  }

  lemma ExitKeepsInv(st: State, s: Session)
    requires Inv(st)
    ensures Inv(st.(active := st.active - {s}))
  {
  }

  lemma BootKeepsInv(st: State, supervisor: Supervisor, written: bool)
    requires Inv(st) && st.process.activity.Down?
    ensures Inv(BootStep(st, supervisor, written))
  {
    if st.active != map[] {
      var s :| s in st.active;
      assert Names(st.file.value, s, st.active[s]);
    }
  }

  lemma StartKeepsInv(st: State, e: Event)
    requires Inv(st) && Enabled(st, e) && Orderly(st, e) && e.Start?
    ensures Inv(Step(st, e))
  {
  }

  lemma LaunchKeepsInv(st: State, e: Event)
    requires Inv(st) && Enabled(st, e) && Orderly(st, e) && e.Launch?
    ensures Inv(Step(st, e))
  {
  }

  lemma ConfirmingKeepsInv(st: State, e: Event)
    requires Inv(st) && Enabled(st, e) && (e.Poll? || e.SaveStarted?)
    ensures Inv(Step(st, e))
  {
  }

  lemma SettleKeepsInv(st: State, s: Session, stopped: bool, running: bool, written: bool)
    requires Inv(st) && IsStarting(st.process.activity) && !st.process.activity.Requesting?
    requires st.process.memory.session == Some(s)
    requires stopped && running ==> !Runs(st, s)
    ensures Inv(SettleStart(st, s, stopped, running, written))
  {
    var after := AfterStop(st, s, running);
    assert forall x :: x in after.active ==> x in st.active;
    if stopped {
      assert forall x :: x !in after.active;
      NothingActive(after);
    }
  }

  lemma WithdrawKeepsInv(st: State, e: Event)
    requires Inv(st) && Enabled(st, e) && Orderly(st, e) && (e.Withdraw? || e.Undo?)
    ensures Inv(Step(st, e))
  {
    var s := st.process.memory.session.value;
    if e.Withdraw? {
      SettleKeepsInv(st, s, !e.reply.Failure?, e.running, e.written);
    } else {
      SettleKeepsInv(st, s, e.stopped, e.running, e.written);
    }
  }

  lemma StopKeepsInv(st: State, e: Event)
    requires Inv(st) && Enabled(st, e) && Orderly(st, e) && (e.Stop? || e.Emergency?)
    ensures Inv(Step(st, e))
  {
  }

  lemma StopAnswerKeepsInv(st: State, e: Event)
    requires Inv(st) && Enabled(st, e) && e.StopAnswer?
    ensures Inv(Step(st, e))
  {
    var s := st.process.memory.session.value;
    var after := AfterStop(st, s, e.running);
    assert forall x :: x in after.active ==> x in st.active;
    if e.stopped {
      assert forall x :: x !in after.active;
      NothingActive(after);
    }
  }

  lemma SubjectIsAll(st: State)
    requires Inv(st) && HasSubject(st.process) && !Runs(st, st.process.memory.session.value)
    requires (st.process.activity.Quiet? && st.process.monitored) || st.process.activity.Reconciling?
    ensures forall x :: x !in st.active
  {
  }

  lemma NoneWhenInactive(st: State)
    requires Inv(st) && HasSubject(st.process)
    requires (st.process.activity.Quiet? && st.process.monitored) || st.process.activity.Reconciling?
    ensures !Runs(st, st.process.memory.session.value) ==> st.active == map[]
  {
    if !Runs(st, st.process.memory.session.value) {
      SubjectIsAll(st);
      NothingActive(st);
    }
  }

  lemma TickKeepsInv(st: State, e: Event)
    requires Inv(st) && Enabled(st, e) && e.Tick?
    ensures Inv(Step(st, e))
  {
    NoneWhenInactive(st);
  }

  lemma ReconciledKeepsInv(st: State, e: Event)
    requires Inv(st) && Enabled(st, e) && e.Reconciled?
    ensures Inv(Step(st, e))
  {
    NoneWhenInactive(st);
  }

  lemma RecoveredKeepsInv(st: State, e: Event)
    requires Inv(st) && Enabled(st, e) && e.Recovered?
    ensures Inv(Step(st, e))
  {
    NoneWhenInactive(st);
  }

  lemma FinalizationKeepsInv(st: State, e: Event)
    requires Inv(st) && Enabled(st, e) && (e.EnterFinalization? || e.FinishFinalization?)
    ensures Inv(Step(st, e))
  {
  }

  lemma StepKeepsInv(st: State, e: Event)
    requires Inv(st) && Enabled(st, e) && Orderly(st, e)
    ensures Inv(Step(st, e))
  {
    hide Inv, BootStep, Orderly, Enabled;
    match e
    case Crash => CrashKeepsInv(st);
    case UnitExits(s) => ExitKeepsInv(st, s);
    case Boot(supervisor, written) => DownAtBoot(st, e); BootKeepsInv(st, supervisor, written);
    case Start(_, _, _, _) => StartKeepsInv(st, e);
    case Launch(_, _, _) => LaunchKeepsInv(st, e);
    case Poll(_) => ConfirmingKeepsInv(st, e);
    case SaveStarted(_) => ConfirmingKeepsInv(st, e);
    case Withdraw(_, _, _) => WithdrawKeepsInv(st, e);
    case Undo(_, _, _) => WithdrawKeepsInv(st, e);
    case Stop => StopKeepsInv(st, e);
    case Emergency => StopKeepsInv(st, e);
    case StopAnswer(_, _) => StopAnswerKeepsInv(st, e);
    case Tick(_) => TickKeepsInv(st, e);
    case Reconciled(_, _, _) => ReconciledKeepsInv(st, e);
    case Recovered(_, _) => RecoveredKeepsInv(st, e);
    case EnterFinalization(_) => FinalizationKeepsInv(st, e);
    case FinishFinalization(_, _) => FinalizationKeepsInv(st, e);
  }

  lemma DownAtBoot(st: State, e: Event)
    requires Enabled(st, e) && e.Boot?
    ensures st.process.activity.Down?
  {
  }

  lemma {:induction false} RunKeepsInv(st: State, events: seq<Event>, end: State)
    requires Inv(st) && Reaches(st, events, end)
    ensures Inv(end)
    decreases events
  {
    if events != [] {
      StepKeepsInv(st, events[0]);
      RunKeepsInv(Step(st, events[0]), events[1..], end);
    }
  }

  /** At every point of every run, crashes included, the durable file names the session and
      the output path of whatever unit runs. */
  lemma RunningUnitIsNamed(events: seq<Event>, end: State)
    requires Reaches(INITIAL, events, end)
    ensures Named(end)
    ensures forall s, t :: s in end.active && t in end.active ==> s == t
  {
    RunKeepsInv(INITIAL, events, end);
  }

  /** Such runs do record: any session can be started from scratch, in orderly steps. */
  lemma AnyRecordingCanRun(s: Session, output: string) returns (events: seq<Event>, end: State)
    ensures Reaches(INITIAL, events, end) && end.process.activity.Quiet?
    ensures end.active == map[s := Unit(Systemd, output)]
    ensures end.file == Some(View(true, Some(s), Some(Identity(Systemd, s, output)), Recording))
  {
    var identity := Identity(Systemd, s, output);
    var starting, recording := View(true, Some(s), Some(identity), Starting), View(true, Some(s), Some(identity), Recording);
    var running := map[s := Unit(Systemd, output)];
    end := State(Process(Systemd, recording, true, Quiet, false), Some(recording), running);
    events := [];
    events := Prepend(State(Process(Systemd, starting, false, SavingStarted, false), Some(starting), running), SaveStarted(true), events, end);
    events := Prepend(State(Process(Systemd, starting, false, Confirming, false), Some(starting), running), Poll(Active), events, end);
    events := Prepend(State(Process(Systemd, starting, false, Requesting, false), Some(starting), map[]), Launch(Requested(true), true, true), events, end);
    events := Prepend(State(Process(Systemd, NOTHING, false, Quiet, false), None, map[]), Start(s, output, true, true), events, end);
    events := Prepend(INITIAL, Boot(Systemd, true), events, end);
  }

  lemma Prepend(st: State, e: Event, events: seq<Event>, end: State) returns (longer: seq<Event>)
    requires Enabled(st, e) && Orderly(st, e) && Reaches(Step(st, e), events, end)
    ensures Reaches(st, longer, end) && longer == [e] + events
  {
    longer := [e] + events;
    assert longer[1..] == events;
  }

  /** While a unit runs, the process is down or refuses a second start. */
  lemma RunningUnitBlocksStart(events: seq<Event>, end: State, s: Session, output: string, written: bool, cleared: bool)
    requires Reaches(INITIAL, events, end) && end.active != map[]
    ensures !Enabled(end, Start(s, output, written, cleared))
  {
    RunKeepsInv(INITIAL, events, end);
  }

  /** A restart re-learns the unit that runs, whatever supervisor is configured by then. */
  lemma RestartFindsTheUnit(events: seq<Event>, end: State, s: Session, supervisor: Supervisor, written: bool)
    requires Reaches(INITIAL, events, end) && end.process.activity.Down? && s in end.active
    ensures var up := Step(end, Boot(supervisor, written));
      && up.process.memory.recording && up.process.memory.session == Some(s)
      && up.process.memory.identity == Some(Identity(end.active[s].supervisor, s, end.active[s].output))
      && up.file == end.file && s in up.active
  {
    RunKeepsInv(INITIAL, events, end);
    assert Names(end.file.value, s, end.active[s]);
  }

  // --- Where the callers' obligations come from ---

  /** A plain stop reported as successful keeps the property exactly when the session was
      started under the configured supervisor, which emergency-stop checks and stop does
      not (or nothing ran anyway). */
  lemma StopIsSafeIff(st: State)
    requires Inv(st) && Enabled(st, Stop) && MayStop(st, st.process.memory.identity.value)
    ensures var stopped := Step(Step(st, Stop), StopAnswer(true, false));
      Named(EnterFinalizationStep(stopped, true)) <==>
        st.process.memory.identity.value.supervisor == st.process.configured || st.active == map[]
  {
    var s := st.process.memory.session.value;
    var stopped := Step(Step(st, Stop), StopAnswer(true, false));
    var entered := EnterFinalizationStep(stopped, true);
    if st.active == map[] {
      assert entered.active == map[];
    } else {
      var t :| t in st.active;
      assert t == s && Remembered(st);
      if st.process.memory.identity.value.supervisor == st.process.configured {
        assert forall x :: x !in entered.active;
      } else {
        assert s in entered.active && !entered.file.value.recording;
      }
    }
  }

  /** A failed Docker start, its record cleared, keeps the property whatever the container
      does exactly when nothing had been asked to run yet or an inspection showed the
      container stopped; the code gives up in the other cases as well. */
  lemma FailedDockerStartIsSafeIff(st: State, outcome: StartOutcome)
    requires Inv(st) && st.process.activity.Requesting? && st.process.configured.Docker?
    requires GivenUp(outcome) && outcome != NotConfirmed(Active)
    ensures (forall running :: Enabled(st, Launch(outcome, running, true)) ==> Named(Step(st, Launch(outcome, running, true))))
      <==> outcome.RefusedBefore? || outcome == NotConfirmed(Inactive)
  {
    var lost := Launch(outcome, true, true);
    if Enabled(st, lost) {
      assert st.process.memory.session.value in Step(st, lost).active;
    }
  }

  /** After a failed systemd start whose unit runs, the clean-up keeps the property whatever
      the unit does next exactly when the stop request was answered, by a confirmation or
      an error; a connection that closes without a reply is taken for a stop. */
  lemma WithdrawIsSafeIff(st: State, reply: StopReply)
    requires Inv(st) && st.process.activity.Withdrawing? && Runs(st, st.process.memory.session.value)
    ensures (forall running :: Enabled(st, Withdraw(reply, running, true)) ==> Named(Step(st, Withdraw(reply, running, true))))
      <==> !reply.Silent?
  {
    var s := st.process.memory.session.value;
    forall running | Enabled(st, Withdraw(reply, running, true)) && !reply.Silent?
      ensures Named(Step(st, Withdraw(reply, running, true)))
    {
      WithdrawKeepsInv(st, Withdraw(reply, running, true));
    }
    var lost := Withdraw(Silent, true, true);
    assert Enabled(st, lost) && s in Step(st, lost).active;
  }

  /** And the failing input is always at hand: a start that fails with its unit running and
      whose stop request goes unanswered is forgotten. */
  lemma UnansweredStopIsForgotten(st: State)
    requires Inv(st) && st.process.activity.Requesting? && st.process.configured.Systemd?
    ensures Enabled(st, Launch(Requested(false), true, true))
    ensures var failed := Step(st, Launch(Requested(false), true, true));
      && Enabled(failed, Withdraw(Silent, true, true))
      && !Named(Step(failed, Withdraw(Silent, true, true)))
  {
    var launch := Launch(Requested(false), true, true);
    assert Orderly(st, launch);
    LaunchKeepsInv(st, launch);
    var failed := Step(st, launch);
    assert st.process.memory.session.value in Step(failed, Withdraw(Silent, true, true)).active;
  }

  /** A finalization finishing in the background keeps the property exactly when nothing
      has been started meanwhile, unless it fails or cannot clear the file. */
  lemma FinishIsSafeIff(st: State, ok: bool, written: bool)
    requires Named(st) && Remembered(st) && (forall s :: s in st.active ==> st.process.memory.recording)
    ensures Named(FinishFinalizationStep(st, ok, written)) <==> st.active == map[] || !ok || !written
  {
    if st.active != map[] {
      var s :| s in st.active;
    }
  }

  /** And the code's own check lets such a start through: from any orderly state with a
      finalization in the background, a recording started and confirmed is forgotten
      when that finalization succeeds. */
  lemma OverlappingStartIsForgotten(st: State, s: Session, output: string)
    requires Inv(st) && st.process.background && st.process.configured.Systemd?
    ensures var start := Start(s, output, true, true);
      && Enabled(st, start)
      && var recording := Step(Step(Step(Step(st, start), Launch(Requested(true), true, true)), Poll(Active)), SaveStarted(true));
      && Named(recording) && recording.process.background
      && !Named(Step(recording, FinishFinalization(true, true)))
  {
    var started := Step(st, Start(s, output, true, true));
    var launched := Step(started, Launch(Requested(true), true, true));
    var confirmed := Step(launched, Poll(Active));
    var recording := Step(confirmed, SaveStarted(true));
    var forgotten := Step(recording, FinishFinalization(true, true));
    assert s in recording.active && forgotten.active == recording.active;
  }

  /** Deciding to finalize survives a crash exactly when the decision did not come from a
      re-adoption that has already cleared the file. */
  lemma DecisionToFinalizeSurvivesIff(st: State, e: Event)
    requires Inv(st) && Enabled(st, e) && !e.Boot?
    requires !st.process.activity.EnteringFinalization? && Step(st, e).process.activity.EnteringFinalization?
    ensures var crashed := Step(Step(st, e), Crash);
      (crashed.file.Some? && crashed.file.value.session == st.process.memory.session) <==>
        !((e.Reconciled? || e.Recovered?) && e.written)
  {
  }
}
