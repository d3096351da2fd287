/**
 Operations that each take a lease, read one shared document, and write their own
 successive versions of it. Generic in the operations and the document: `writes`
 lists what an operation writes after reading a document.
 */
module LeasedRuns {
  import opened Wrappers
  import FilesystemLease

  /** The document after the first `k` writes. */
  function Effect<Op, Doc>(writes: (Op, Doc) -> seq<Doc>, op: Op, document: Doc, k: nat): Doc {
    var versions := writes(op, document);
    if k == 0 || k > |versions| then document else versions[k - 1]
  }

  function Complete<Op, Doc>(writes: (Op, Doc) -> seq<Doc>, op: Op, document: Doc): Doc {
    Effect(writes, op, document, |writes(op, document)|)
  }

  /** The operations one after another. */
  function Serial<Op, Doc>(writes: (Op, Doc) -> seq<Doc>, document: Doc, ops: seq<Op>): Doc {
    if ops == [] then document
    else Complete(writes, ops[|ops| - 1], Serial(writes, document, ops[..|ops| - 1]))
  }

  // --- Interleaved handlers ---

  /** acquireRecordingOperationLease takes a day. */
  const TTL: int := 24 * 60 * 60 * 1000

  /** `turn` is the operation's place in the order of acquisition. */
  datatype Phase<Doc> =
    | Refused
    | Holding(acquiredAt: int, turn: nat)
    | Working(acquiredAt: int, turn: nat, remaining: seq<Doc>)
    | Finished
    | Crashed

  /** An acquisition: which operation, and how many of its writes are done. */
  datatype Entry<Op> = Entry(owner: string, op: Op, written: nat)

  datatype State<Op, Doc> = State(
    now: int, lock: FilesystemLease.Lock, document: Doc, phases: map<string, Phase<Doc>>, order: seq<Entry<Op>>)

  datatype Event<Op> =
    | Acquire(owner: string, op: Op)
    | Read(owner: string)
    | Write(owner: string)
    | Release(owner: string)
    | Crash(owner: string)
    | Tick(to: int)

  predicate Active<Op, Doc>(s: State<Op, Doc>, owner: string) {
    owner in s.phases && (s.phases[owner].Holding? || s.phases[owner].Working?) && s.phases[owner].turn < |s.order|
  }

  /** Time passes only as long as every working operation stays within its lease. */
  predicate Enabled<Op, Doc(==)>(s: State<Op, Doc>, e: Event<Op>) {
    match e
    case Acquire(o, _) => o != "" && o !in s.phases
    case Read(o) => Active(s, o) && s.phases[o].Holding?
    case Write(o) => Active(s, o) && s.phases[o].Working? && s.phases[o].remaining != []
    case Release(o) => Active(s, o) && s.phases[o].Working? && s.phases[o].remaining == []
    case Crash(o) => Active(s, o)
    case Tick(to) => to >= s.now && forall o :: o in s.phases && Active(s, o) ==> to < s.phases[o].acquiredAt + TTL
  }

  function Step<Op, Doc(==)>(writes: (Op, Doc) -> seq<Doc>, s: State<Op, Doc>, e: Event<Op>): State<Op, Doc>
    requires Enabled(s, e)
  {
    match e
    case Acquire(o, op) =>
      if FilesystemLease.Takeable(s.lock, s.now)
      then s.(lock := FilesystemLease.Acquired(o, TTL, s.now), phases := s.phases[o := Holding(s.now, |s.order|)],
              order := s.order + [Entry(o, op, 0)])
      else s.(phases := s.phases[o := Refused])
    case Read(o) =>
      var p := s.phases[o];
      s.(phases := s.phases[o := Working(p.acquiredAt, p.turn, writes(s.order[p.turn].op, s.document))])
    case Write(o) =>
      var p := s.phases[o];
      var entry := s.order[p.turn];
      s.(document := p.remaining[0], phases := s.phases[o := p.(remaining := p.remaining[1..])],
         order := s.order[p.turn := entry.(written := entry.written + 1)])
    case Release(o) =>
      s.(lock := FilesystemLease.AfterRelease(s.lock, o), phases := s.phases[o := Finished])
    case Crash(o) => s.(phases := s.phases[o := Crashed])
    case Tick(to) => s.(now := to)
  }

  ghost function Exec<Op, Doc>(writes: (Op, Doc) -> seq<Doc>, s: State<Op, Doc>, events: seq<Event<Op>>): Option<State<Op, Doc>> {
    if events == [] then Some(s)
    else
      var n := |events| - 1;
      var before := Exec(writes, s, events[..n]);
      if before.Some? && Enabled(before.value, events[n]) then Some(Step(writes, before.value, events[n])) else None
  }

  function Start<Op, Doc>(now: int, document: Doc): State<Op, Doc> {
    State(now, FilesystemLease.Absent, document, map[], [])
  }

  /** The acquisitions one after another, each with the writes it got done. */
  function Replay<Op, Doc>(writes: (Op, Doc) -> seq<Doc>, document: Doc, order: seq<Entry<Op>>): Doc {
    if order == [] then document
    else Effect(writes, order[|order| - 1].op, Replay(writes, document, order[..|order| - 1]), order[|order| - 1].written)
  }

  /** The document the operation in `turn` started from. */
  function Base<Op, Doc>(writes: (Op, Doc) -> seq<Doc>, initial: Doc, s: State<Op, Doc>, turn: nat): Doc
    requires turn < |s.order|
  {
    Replay(writes, initial, s.order[..turn])
  }

  ghost predicate LockInv<Op, Doc>(s: State<Op, Doc>) {
    forall o :: Active(s, o) ==>
      && s.phases[o].acquiredAt <= s.now < s.phases[o].acquiredAt + TTL
      && s.lock == FilesystemLease.Acquired(o, TTL, s.phases[o].acquiredAt)
  }

  ghost predicate OrderInv<Op, Doc>(s: State<Op, Doc>) {
    && (forall o :: o in s.phases && (s.phases[o].Holding? || s.phases[o].Working?) ==>
          s.phases[o].turn == |s.order| - 1 && s.order[s.phases[o].turn].owner == o)
    && (forall i :: 0 <= i < |s.order| ==> s.order[i].owner in s.phases && !s.phases[s.order[i].owner].Refused?)
    && (forall i, j :: 0 <= i < j < |s.order| ==> s.order[i].owner != s.order[j].owner)
  }

  /** The active operation works on what it read, and has done the writes counted. */
  ghost predicate WorkInv<Op, Doc>(writes: (Op, Doc) -> seq<Doc>, initial: Doc, s: State<Op, Doc>) {
    forall o :: Active(s, o) ==>
      var p, entry := s.phases[o], s.order[s.phases[o].turn];
      var versions := writes(entry.op, Base(writes, initial, s, p.turn));
      && entry.written <= |versions|
      && (p.Holding? ==> entry.written == 0)
      && (p.Working? ==> p.remaining == versions[entry.written..])
  }

  ghost predicate FinishedInv<Op, Doc>(writes: (Op, Doc) -> seq<Doc>, initial: Doc, s: State<Op, Doc>) {
    forall i :: 0 <= i < |s.order| && s.order[i].owner in s.phases && s.phases[s.order[i].owner].Finished? ==>
      s.order[i].written == |writes(s.order[i].op, Base(writes, initial, s, i))|
  }

  ghost predicate Inv<Op, Doc>(writes: (Op, Doc) -> seq<Doc>, initial: Doc, s: State<Op, Doc>) {
    && LockInv(s) && OrderInv(s) && WorkInv(writes, initial, s) && FinishedInv(writes, initial, s)
    && s.document == Replay(writes, initial, s.order)
  }

  lemma StepKeepsLock<Op, Doc>(writes: (Op, Doc) -> seq<Doc>, s: State<Op, Doc>, e: Event<Op>)
    requires LockInv(s) && OrderInv(s) && Enabled(s, e)
    ensures LockInv(Step(writes, s, e))
  {
  }

  lemma AcquireKeepsOrder<Op, Doc>(writes: (Op, Doc) -> seq<Doc>, s: State<Op, Doc>, e: Event<Op>)
    requires LockInv(s) && OrderInv(s) && Enabled(s, e) && e.Acquire?
    ensures OrderInv(Step(writes, s, e))
  {
    if FilesystemLease.Takeable(s.lock, s.now) {
      NoneActiveWhenTakeable(s);
    }
  }

  lemma NoneActiveWhenTakeable<Op, Doc>(s: State<Op, Doc>)
    requires LockInv(s) && FilesystemLease.Takeable(s.lock, s.now)
    ensures forall o :: !Active(s, o)
  {
  }

  lemma StepKeepsOrder<Op, Doc>(writes: (Op, Doc) -> seq<Doc>, s: State<Op, Doc>, e: Event<Op>)
    requires LockInv(s) && OrderInv(s) && Enabled(s, e)
    ensures OrderInv(Step(writes, s, e))
  {
    if e.Acquire? {
      hide Step, Enabled, OrderInv;
      AcquireKeepsOrder(writes, s, e);
    } else {
      hide LockInv;
    }
  }

  /** A longer order leaves the documents the earlier operations started from. */
  lemma BaseStands<Op, Doc>(writes: (Op, Doc) -> seq<Doc>, initial: Doc, s: State<Op, Doc>, t: State<Op, Doc>, i: nat)
    requires i < |s.order| && i < |t.order| && t.order[..i] == s.order[..i]
    ensures Base(writes, initial, t, i) == Base(writes, initial, s, i)
  {
  }

  lemma AcquireKeepsFinished<Op, Doc>(writes: (Op, Doc) -> seq<Doc>, initial: Doc, s: State<Op, Doc>, e: Event<Op>)
    requires FinishedInv(writes, initial, s) && OrderInv(s) && Enabled(s, e) && e.Acquire?
    ensures FinishedInv(writes, initial, Step(writes, s, e))
  {
    hide Base;
    var s' := Step(writes, s, e);
    forall i | 0 <= i < |s'.order| && s'.order[i].owner in s'.phases && s'.phases[s'.order[i].owner].Finished?
      ensures s'.order[i].written == |writes(s'.order[i].op, Base(writes, initial, s', i))|
    {
      assert s'.order[..i] == s.order[..i];
      BaseStands(writes, initial, s, s', i);
    }
  }

  lemma AcquireKeepsInv<Op, Doc>(writes: (Op, Doc) -> seq<Doc>, initial: Doc, s: State<Op, Doc>, e: Event<Op>)
    requires Inv(writes, initial, s) && Enabled(s, e) && e.Acquire?
    ensures Inv(writes, initial, Step(writes, s, e))
  {
    var s' := Step(writes, s, e);
    StepKeepsLock(writes, s, e);
    StepKeepsOrder(writes, s, e);
    AcquireKeepsFinished(writes, initial, s, e);
    hide OrderInv, FinishedInv;
    if FilesystemLease.Takeable(s.lock, s.now) {
      NoneActiveWhenTakeable(s);
      hide LockInv;
      assert s'.order[..|s.order|] == s.order;
    }
  }

  lemma WriteKeepsInv<Op, Doc>(writes: (Op, Doc) -> seq<Doc>, initial: Doc, s: State<Op, Doc>, e: Event<Op>)
    requires Inv(writes, initial, s) && Enabled(s, e) && e.Write?
    ensures Inv(writes, initial, Step(writes, s, e))
  {
    var s' := Step(writes, s, e);
    StepKeepsLock(writes, s, e);
    StepKeepsOrder(writes, s, e);
    hide LockInv;
    assert forall i :: 0 <= i < |s.order| ==> s'.order[..i] == s.order[..i];
  }

  /** The steps that leave the order and the document as they are. */
  lemma OtherKeepsFinished<Op, Doc>(writes: (Op, Doc) -> seq<Doc>, initial: Doc, s: State<Op, Doc>, e: Event<Op>)
    requires Inv(writes, initial, s) && Enabled(s, e) && !e.Acquire? && !e.Write?
    ensures FinishedInv(writes, initial, Step(writes, s, e))
  {
    hide LockInv, Base, Replay;
    var s' := Step(writes, s, e);
    forall i | 0 <= i < |s'.order| && s'.order[i].owner in s'.phases && s'.phases[s'.order[i].owner].Finished?
      ensures s'.order[i].written == |writes(s'.order[i].op, Base(writes, initial, s', i))|
    {
      BaseStands(writes, initial, s, s', i);
    }
  }

  lemma OtherKeepsWork<Op, Doc>(writes: (Op, Doc) -> seq<Doc>, initial: Doc, s: State<Op, Doc>, e: Event<Op>)
    requires Inv(writes, initial, s) && Enabled(s, e) && !e.Acquire? && !e.Write?
    ensures WorkInv(writes, initial, Step(writes, s, e))
  {
    hide LockInv, FinishedInv;
  }

  lemma OtherKeepsInv<Op, Doc>(writes: (Op, Doc) -> seq<Doc>, initial: Doc, s: State<Op, Doc>, e: Event<Op>)
    requires Inv(writes, initial, s) && Enabled(s, e) && !e.Acquire? && !e.Write?
    ensures Inv(writes, initial, Step(writes, s, e))
  {
    hide LockInv, OrderInv, WorkInv, FinishedInv;
    StepKeepsLock(writes, s, e);
    StepKeepsOrder(writes, s, e);
    OtherKeepsFinished(writes, initial, s, e);
    OtherKeepsWork(writes, initial, s, e);
  }

  lemma StepKeepsInv<Op, Doc>(writes: (Op, Doc) -> seq<Doc>, initial: Doc, s: State<Op, Doc>, e: Event<Op>)
    requires Inv(writes, initial, s) && Enabled(s, e)
    ensures Inv(writes, initial, Step(writes, s, e))
  {
    hide Inv, Enabled, Step;
    if e.Acquire? {
      AcquireKeepsInv(writes, initial, s, e);
    } else if e.Write? {
      WriteKeepsInv(writes, initial, s, e);
    } else {
      OtherKeepsInv(writes, initial, s, e);
    }
  }

  lemma {:induction false} RunKeepsInv<Op, Doc>(writes: (Op, Doc) -> seq<Doc>, now: int, document: Doc, events: seq<Event<Op>>)
    requires Exec(writes, Start(now, document), events).Some?
    ensures Inv(writes, document, Exec(writes, Start(now, document), events).value)
  {
    if events != [] {
      var n := |events| - 1;
      RunKeepsInv(writes, now, document, events[..n]);
      StepKeepsInv(writes, document, Exec(writes, Start(now, document), events[..n]).value, events[n]);
    }
  }

  function Operations<Op>(order: seq<Entry<Op>>): (ops: seq<Op>)
    ensures |ops| == |order| && forall i :: 0 <= i < |ops| ==> ops[i] == order[i].op
  {
    seq(|order|, i requires 0 <= i < |order| => order[i].op)
  }

  /** Every acquisition did all its writes. */
  ghost predicate AllComplete<Op, Doc>(writes: (Op, Doc) -> seq<Doc>, document: Doc, order: seq<Entry<Op>>) {
    order == [] ||
    var n := |order| - 1;
    && AllComplete(writes, document, order[..n])
    && order[n].written == |writes(order[n].op, Replay(writes, document, order[..n]))|
  }

  lemma {:induction false} CompleteReplayIsSerial<Op, Doc>(writes: (Op, Doc) -> seq<Doc>, document: Doc, order: seq<Entry<Op>>)
    requires AllComplete(writes, document, order)
    ensures Replay(writes, document, order) == Serial(writes, document, Operations(order))
  {
    if order != [] {
      var n := |order| - 1;
      CompleteReplayIsSerial(writes, document, order[..n]);
      assert Operations(order)[..n] == Operations(order[..n]);
    }
  }

  lemma {:induction false} FinishedIsComplete<Op, Doc>(writes: (Op, Doc) -> seq<Doc>, document: Doc, s: State<Op, Doc>, k: nat)
    requires FinishedInv(writes, document, s) && k <= |s.order|
    requires forall i :: 0 <= i < |s.order| ==> s.order[i].owner in s.phases && s.phases[s.order[i].owner].Finished?
    ensures AllComplete(writes, document, s.order[..k])
  {
    if k > 0 {
      FinishedIsComplete(writes, document, s, k - 1);
      assert s.order[..k][..k - 1] == s.order[..k - 1];
      assert s.order[k - 1].owner in s.phases;
    }
  }

  /** At every moment of every run, crashes and expired leases included, the document is
      what the operations left behind one after another in acquisition order, the
      crashed and the active one with only the writes they got done. */
  lemma AlwaysInAcquisitionOrder<Op, Doc>(writes: (Op, Doc) -> seq<Doc>, now: int, document: Doc, events: seq<Event<Op>>)
    requires Exec(writes, Start(now, document), events).Some?
    ensures var s := Exec(writes, Start(now, document), events).value;
      && s.document == Replay(writes, document, s.order)
      && forall i :: 0 <= i < |s.order| && s.order[i].owner in s.phases && s.phases[s.order[i].owner].Finished? ==>
           s.order[i].written == |writes(s.order[i].op, Replay(writes, document, s.order[..i]))|
  {
    RunKeepsInv(writes, now, document, events);
  }

  /** Operations that all finish within their lease are serialisable. */
  lemma Serialisable<Op, Doc>(writes: (Op, Doc) -> seq<Doc>, now: int, document: Doc, events: seq<Event<Op>>)
    requires Exec(writes, Start(now, document), events).Some?
    requires var s := Exec(writes, Start(now, document), events).value;
      forall o :: o in s.phases ==> s.phases[o].Finished? || s.phases[o].Refused?
    ensures var s := Exec(writes, Start(now, document), events).value;
      s.document == Serial(writes, document, Operations(s.order))
  {
    RunKeepsInv(writes, now, document, events);
    var s := Exec(writes, Start(now, document), events).value;
    FinishedIsComplete(writes, document, s, |s.order|);
    assert s.order[..|s.order|] == s.order;
    CompleteReplayIsSerial(writes, document, s.order);
  }

  // --- A free lease lets an operation through ---

  lemma {:induction false} ExecOn<Op, Doc>(writes: (Op, Doc) -> seq<Doc>, s: State<Op, Doc>, a: seq<Event<Op>>, t: State<Op, Doc>,
                                           b: seq<Event<Op>>, u: State<Op, Doc>)
    requires Exec(writes, s, a) == Some(t) && Exec(writes, t, b) == Some(u)
    ensures Exec(writes, s, a + b) == Some(u)
  {
    hide Step, Enabled;
    if b == [] {
      assert a + b == a;
    } else {
      var n := |b| - 1;
      var before := Exec(writes, t, b[..n]);
      ExecOn(writes, s, a, t, b[..n], before.value);
      assert (a + b)[..|a + b| - 1] == a + b[..n];
    }
  }

  /** The writes that remain, one after another. */
  lemma {:induction false} WriteAll<Op, Doc>(writes: (Op, Doc) -> seq<Doc>, s: State<Op, Doc>, o: string)
    returns (events: seq<Event<Op>>, t: State<Op, Doc>)
    requires Active(s, o) && s.phases[o].Working?
    ensures Exec(writes, s, events) == Some(t) && Active(t, o) && t.phases[o].Working? && t.phases[o].remaining == []
    ensures t.lock == s.lock
    ensures var remaining := s.phases[o].remaining;
      t.document == if remaining == [] then s.document else remaining[|remaining| - 1]
    decreases |s.phases[o].remaining|
  {
    StartsWithItself(writes, s);
    if s.phases[o].remaining == [] {
      events, t := [], s;
    } else {
      var next := WriteStep(writes, s, o);
      WritesKeepLock(writes, s, o);
      hide Exec, Enabled, Step;
      ExtendRun(writes, s, [], s, Write(o));
      events, t := WriteAll(writes, next, o);
      ExecOn(writes, s, [] + [Write(o)], next, events, t);
      events := [] + [Write(o)] + events;
    }
  }

  lemma WritesKeepLock<Op, Doc>(writes: (Op, Doc) -> seq<Doc>, s: State<Op, Doc>, o: string)
    requires Active(s, o) && s.phases[o].Working? && s.phases[o].remaining != []
    ensures Step(writes, s, Write(o)).lock == s.lock
  {
  }

  lemma AcquireStep<Op, Doc>(writes: (Op, Doc) -> seq<Doc>, s: State<Op, Doc>, o: string, op: Op) returns (t: State<Op, Doc>)
    requires o != "" && o !in s.phases && FilesystemLease.Takeable(s.lock, s.now)
    ensures Enabled(s, Acquire(o, op)) && t == Step(writes, s, Acquire(o, op))
    ensures Active(t, o) && t.phases[o].Holding? && t.document == s.document
    ensures t.order[t.phases[o].turn] == Entry(o, op, 0) && t.lock == FilesystemLease.Acquired(o, TTL, s.now)
    ensures t.lock.lease == Some(FilesystemLease.Lease(o, s.now + 86_400_000))
  {
    t := Step(writes, s, Acquire(o, op));
  }

  /** From every state, and whatever crashed before: once the lease is free or has expired, an
      operation can run to its end; the document is then what it makes of the one it found, and
      the lease is free again. */
  lemma {:induction false} FreeLeaseLetsThrough<Op, Doc>(writes: (Op, Doc) -> seq<Doc>, s: State<Op, Doc>, o: string, op: Op)
    returns (events: seq<Event<Op>>, end: State<Op, Doc>)
    requires o != "" && o !in s.phases && FilesystemLease.Takeable(s.lock, s.now)
    ensures Exec(writes, s, events) == Some(end)
    ensures end.document == Complete(writes, op, s.document)
    ensures o in end.phases && end.phases[o].Finished? && end.lock == FilesystemLease.Absent
  {
    StartsWithItself(writes, s);
    var acquired := AcquireStep(writes, s, o, op);
    var read := ReadStep(writes, acquired, o);
    ReleaseFrees(o, TTL, s.now);
    hide Exec, Enabled, Step, FilesystemLease.AfterRelease;
    ExtendRun(writes, s, [], s, Acquire(o, op));
    ExtendRun(writes, s, [] + [Acquire(o, op)], acquired, Read(o));
    var writing, written := WriteAll(writes, read, o);
    ExecOn(writes, s, [] + [Acquire(o, op)] + [Read(o)], read, writing, written);
    end := ReleaseStep(writes, written, o);
    ReleaseLock(writes, written, o);
    events := [] + [Acquire(o, op)] + [Read(o)] + writing;
    ExtendRun(writes, s, events, written, Release(o));
    events := events + [Release(o)];
  }

  lemma ReleaseFrees(o: string, ttl: int, now: int)
    ensures FilesystemLease.AfterRelease(FilesystemLease.Acquired(o, ttl, now), o) == FilesystemLease.Absent
  {
  }

  lemma ReleaseLock<Op, Doc>(writes: (Op, Doc) -> seq<Doc>, s: State<Op, Doc>, o: string)
    requires Active(s, o) && s.phases[o].Working? && s.phases[o].remaining == []
    ensures Step(writes, s, Release(o)).lock == FilesystemLease.AfterRelease(s.lock, o)
  {
  }

  /** A lease that nobody works under expires: waiting is allowed and makes it free. */
  lemma AbandonedLeaseExpires<Op, Doc>(writes: (Op, Doc) -> seq<Doc>, s: State<Op, Doc>) returns (wait: Event<Op>)
    requires forall o :: !Active(s, o)
    ensures Enabled(s, wait) && FilesystemLease.Takeable(Step(writes, s, wait).lock, Step(writes, s, wait).now)
    ensures Step(writes, s, wait).document == s.document && Step(writes, s, wait).phases == s.phases
  {
    var expiry := if s.lock.Present? && s.lock.lease.Some? then s.lock.lease.value.expiresAt else s.now;
    wait := Tick(if expiry > s.now then expiry else s.now);
  }

  // --- Without the lease ---

  /** Two operations let in at once, as if the lease did not exclude. */
  function BothAdmitted<Op, Doc>(now: int, document: Doc, a: Op, b: Op): State<Op, Doc> {
    State(now, FilesystemLease.Absent, document, map["a" := Holding(now, 0), "b" := Holding(now, 1)],
          [Entry("a", a, 0), Entry("b", b, 0)])
  }

  /** `a` reads the document; while it waits `b` runs from its read to its end; then `a`
      writes and ends. */
  function Overlap<Op>(): seq<Event<Op>> {
    [Read("a"), Read("b"), Write("b"), Release("b"), Write("a"), Release("a")]
  }

  lemma ExtendRun<Op, Doc>(writes: (Op, Doc) -> seq<Doc>, start: State<Op, Doc>, events: seq<Event<Op>>, s: State<Op, Doc>, e: Event<Op>)
    requires Exec(writes, start, events) == Some(s) && Enabled(s, e)
    ensures Exec(writes, start, events + [e]) == Some(Step(writes, s, e))
  {
    assert (events + [e])[..|events|] == events;
  }

  /** Both end, and what `b` wrote is lost: the document is `a`'s version of what it read. */
  lemma OverlapLosesTheSecond<Op, Doc>(writes: (Op, Doc) -> seq<Doc>, now: int, document: Doc, a: Op, b: Op)
    requires |writes(a, document)| == 1 && |writes(b, document)| == 1
    ensures var end := Exec(writes, BothAdmitted(now, document, a, b), Overlap());
      && end.Some? && end.value.document == writes(a, document)[0]
      && "a" in end.value.phases && end.value.phases["a"].Finished?
      && "b" in end.value.phases && end.value.phases["b"].Finished?
  {
    hide Exec, Enabled, Step;
    var start := BothAdmitted(now, document, a, b);
    StartsWithItself(writes, start);
    var s1 := ReadStep(writes, start, "a");
    ExtendRun(writes, start, [], start, Read("a"));
    var s2 := ReadStep(writes, s1, "b");
    ExtendRun(writes, start, [] + [Read("a")], s1, Read("b"));
    var s3 := WriteStep(writes, s2, "b");
    ExtendRun(writes, start, [] + [Read("a")] + [Read("b")], s2, Write("b"));
    var s4 := ReleaseStep(writes, s3, "b");
    ExtendRun(writes, start, [] + [Read("a")] + [Read("b")] + [Write("b")], s3, Release("b"));
    var s5 := WriteStep(writes, s4, "a");
    ExtendRun(writes, start, [] + [Read("a")] + [Read("b")] + [Write("b")] + [Release("b")], s4, Write("a"));
    var s6 := ReleaseStep(writes, s5, "a");
    ExtendRun(writes, start, [] + [Read("a")] + [Read("b")] + [Write("b")] + [Release("b")] + [Write("a")], s5, Release("a"));
    assert [] + [Read("a")] + [Read("b")] + [Write("b")] + [Release("b")] + [Write("a")] + [Release("a")] == Overlap<Op>();
  }

  lemma StartsWithItself<Op, Doc>(writes: (Op, Doc) -> seq<Doc>, start: State<Op, Doc>)
    ensures Exec(writes, start, []) == Some(start)
  {
  }

  lemma ReadStep<Op, Doc>(writes: (Op, Doc) -> seq<Doc>, s: State<Op, Doc>, o: string) returns (t: State<Op, Doc>)
    requires Active(s, o) && s.phases[o].Holding?
    ensures Enabled(s, Read(o)) && t == Step(writes, s, Read(o))
    ensures var p := s.phases[o];
      t == s.(phases := s.phases[o := Working(p.acquiredAt, p.turn, writes(s.order[p.turn].op, s.document))])
  {
    t := Step(writes, s, Read(o));
  }

  lemma WriteStep<Op, Doc>(writes: (Op, Doc) -> seq<Doc>, s: State<Op, Doc>, o: string) returns (t: State<Op, Doc>)
    requires Active(s, o) && s.phases[o].Working? && s.phases[o].remaining != []
    ensures Enabled(s, Write(o)) && t == Step(writes, s, Write(o))
    ensures var p := s.phases[o];
      && t.document == p.remaining[0] && t.phases == s.phases[o := p.(remaining := p.remaining[1..])]
      && |t.order| == |s.order|
  {
    t := Step(writes, s, Write(o));
  }

  lemma ReleaseStep<Op, Doc>(writes: (Op, Doc) -> seq<Doc>, s: State<Op, Doc>, o: string) returns (t: State<Op, Doc>)
    requires Active(s, o) && s.phases[o].Working? && s.phases[o].remaining == []
    ensures Enabled(s, Release(o)) && t == Step(writes, s, Release(o))
    ensures t.document == s.document && t.order == s.order && t.phases == s.phases[o := Finished]
  {
    t := Step(writes, s, Release(o));
  }
}
