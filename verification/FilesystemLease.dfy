/**
 Expiring leases kept as a lock directory holding lease.json
 (kamrui-media-edge/camera-api/recording-safety.js). Acquire and release are one step
 each, because they run synchronously in the only process that takes leases.
 */
module FilesystemLease {
  import opened Wrappers

  datatype Lease = Lease(owner: string, expiresAt: int)

  /** A crash inside acquire can leave the directory without a readable lease. */
  datatype Lock = Absent | Present(lease: Option<Lease>)

  datatype Acquisition = Acquisition(acquired: bool, lease: Option<Lease>)

  datatype LeaseError = OwnerRequired

  predicate Takeable(lock: Lock, now: int) {
    lock.Absent? || lock.lease.None? || lock.lease.value.expiresAt <= now
  }

  function Acquired(owner: string, ttl: int, now: int): Lock {
    Present(Some(Lease(owner, now + ttl)))
  }

  function AfterRelease(lock: Lock, owner: string): Lock {
    if lock.Present? && lock.lease.Some? && lock.lease.value.owner == owner then Absent else lock
  }

  /** The lock of one session. */
  class FilesystemLock {
    var lock: Lock

    constructor ()
      ensures lock == Absent
    {
      lock := Absent;
    }

    /** acquireFilesystemLease: create the directory, or move an expired or unreadable
        one aside and create it anew. */
    method Acquire(owner: string, ttl: int, now: int) returns (result: Result<Acquisition, LeaseError>)
      modifies this
      ensures result.Err? <==> owner == ""
      ensures result.Ok? ==> (result.value.acquired <==>
        !(old(lock).Present? && old(lock).lease.Some? && now < old(lock).lease.value.expiresAt))
      ensures result.Ok? ==> (result.value.acquired <==> Takeable(old(lock), now))
      ensures result.Ok? && result.value.acquired ==> lock == Present(Some(Lease(owner, now + ttl))) && result.value.lease == lock.lease
      ensures result.Err? || !result.value.acquired ==> lock == old(lock)
      ensures result.Ok? && !result.value.acquired ==> result.value.lease == old(lock).lease
    {
      if owner == "" {
        return Err(OwnerRequired);
      }
      if lock.Present? {
        var existing := lock.lease;
        if existing.Some? && existing.value.expiresAt > now {
          return Ok(Acquisition(false, existing));
        }
        lock := Absent;
      }
      lock := Present(None);
      lock := Present(Some(Lease(owner, now + ttl)));
      return Ok(Acquisition(true, lock.lease));
    }

    /** releaseFilesystemLease: only the owner named in the lease removes it. */
    method Release(owner: string) returns (released: bool)
      modifies this
      ensures lock == AfterRelease(old(lock), owner)
      ensures released <==> old(lock).Present? && old(lock).lease.Some? && old(lock).lease.value.owner == owner
      ensures lock == if released then Absent else old(lock)
    {
      if lock.Absent? || lock.lease.None? || lock.lease.value.owner != owner {
        return false;
      }
      lock := Absent;
      return true;
    }
  }

  /** What a crash inside acquire can leave behind. */
  function AcquireCrashPoints(lock: Lock, owner: string, ttl: int, now: int): set<Lock> {
    if Takeable(lock, now) then {lock, Absent, Present(None), Acquired(owner, ttl, now)} else {lock}
  }

  function ReleaseCrashPoints(lock: Lock, owner: string): set<Lock> {
    {lock, AfterRelease(lock, owner)}
  }

  // --- Every run of callers on one lock ---

  datatype Holding = Holding(acquiredAt: int, ttl: int)

  /** `holders` are the callers told that they acquired and that have not released;
      `used` are all the owners that ever tried: each is a fresh UUID. */
  datatype State = State(now: int, lock: Lock, holders: map<string, Holding>, used: set<string>)

  datatype Event =
    | TryAcquire(owner: string, ttl: int)
    | CrashInAcquire(owner: string, ttl: int, leaves: Lock)
    | Release(owner: string)
    | CrashInRelease(owner: string, leaves: Lock)
    | Tick(to: int)

  predicate Enabled(s: State, e: Event) {
    match e
    case TryAcquire(o, _) => o != "" && o !in s.used
    case CrashInAcquire(o, ttl, leaves) => o != "" && o !in s.used && leaves in AcquireCrashPoints(s.lock, o, ttl, s.now)
    case Release(o) => o in s.holders
    case CrashInRelease(o, leaves) => o in s.holders && leaves in ReleaseCrashPoints(s.lock, o)
    case Tick(to) => to >= s.now
  }

  function Step(s: State, e: Event): State
    requires Enabled(s, e)
  {
    match e
    case TryAcquire(o, ttl) =>
      if Takeable(s.lock, s.now)
      then s.(lock := Acquired(o, ttl, s.now), holders := s.holders[o := Holding(s.now, ttl)], used := s.used + {o})
      else s.(used := s.used + {o})
    case CrashInAcquire(o, ttl, leaves) => s.(lock := leaves, used := s.used + {o})
    case Release(o) => s.(lock := AfterRelease(s.lock, o), holders := s.holders - {o})
    case CrashInRelease(o, leaves) => s.(lock := leaves, holders := s.holders - {o})
    case Tick(to) => s.(now := to)
  }

  /** A caller holds the lease while it has not released and its time is not up. */
  predicate Holds(s: State, owner: string) {
    owner in s.holders && s.holders[owner].acquiredAt <= s.now < s.holders[owner].acquiredAt + s.holders[owner].ttl
  }

  ghost predicate Inv(s: State) {
    && (forall o :: o in s.holders ==> o in s.used && s.holders[o].acquiredAt <= s.now)
    && (s.lock.Present? && s.lock.lease.Some? ==> s.lock.lease.value.owner in s.used)
    && (forall o :: Holds(s, o) ==> s.lock == Acquired(o, s.holders[o].ttl, s.holders[o].acquiredAt))
  }

  ghost function Exec(s: State, events: seq<Event>): Option<State> {
    if events == [] then Some(s)
    else
      var n := |events| - 1;
      var before := Exec(s, events[..n]);
      if before.Some? && Enabled(before.value, events[n]) then Some(Step(before.value, events[n])) else None
  }

  lemma StepKeepsInv(s: State, e: Event)
    requires Inv(s) && Enabled(s, e)
    ensures Inv(Step(s, e))
  {
    var s' := Step(s, e);
    forall o | Holds(s', o)
      ensures s'.lock == Acquired(o, s'.holders[o].ttl, s'.holders[o].acquiredAt)
    {
      if e != TryAcquire(o, s'.holders[o].ttl) || o in s.holders {
        assert Holds(s, o);
      }
    }
  }

  lemma {:induction false} RunKeepsInv(now: int, events: seq<Event>)
    requires Exec(State(now, Absent, map[], {}), events).Some?
    ensures Inv(Exec(State(now, Absent, map[], {}), events).value)
  {
    if events != [] {
      var n := |events| - 1;
      RunKeepsInv(now, events[..n]);
      StepKeepsInv(Exec(State(now, Absent, map[], {}), events[..n]).value, events[n]);
    }
  }

  /** In every run, with crashes inside acquire and release, a holder is the only one
      and the lock on disk names it. */
  lemma SoleHolder(now: int, events: seq<Event>, a: string, b: string)
    requires Exec(State(now, Absent, map[], {}), events).Some?
    requires Holds(Exec(State(now, Absent, map[], {}), events).value, a)
    requires Holds(Exec(State(now, Absent, map[], {}), events).value, b)
    ensures a == b
    ensures var s := Exec(State(now, Absent, map[], {}), events).value;
      s.lock == Acquired(a, s.holders[a].ttl, s.holders[a].acquiredAt)
  {
    RunKeepsInv(now, events);
  }

  /** Someone else's release, however late, never takes the lease from its holder. */
  lemma LateReleaseIsHarmless(now: int, events: seq<Event>, holder: string, late: string)
    requires Exec(State(now, Absent, map[], {}), events).Some?
    requires var s := Exec(State(now, Absent, map[], {}), events).value;
      Holds(s, holder) && late in s.holders && late != holder
    ensures var s := Exec(State(now, Absent, map[], {}), events).value;
      Step(s, Release(late)).lock == s.lock && Holds(Step(s, Release(late)), holder)
  {
    RunKeepsInv(now, events);
  }

  /** A lease is refused exactly while a readable one runs; in particular a live
      holder's lease is refused, and an abandoned one can be taken from its expiry on. */
  lemma TakenExactlyWhenFree(now: int, events: seq<Event>, o: string, ttl: int)
    requires Exec(State(now, Absent, map[], {}), events).Some?
    requires var s := Exec(State(now, Absent, map[], {}), events).value; Enabled(s, TryAcquire(o, ttl))
    ensures var s := Exec(State(now, Absent, map[], {}), events).value;
      var s' := Step(s, TryAcquire(o, ttl));
      && ((exists h :: Holds(s, h)) ==> o !in s'.holders && s'.lock == s.lock)
      && (o in s'.holders <==> !(s.lock.Present? && s.lock.lease.Some? && s.now < s.lock.lease.value.expiresAt))
  {
    RunKeepsInv(now, events);
    var s := Exec(State(now, Absent, map[], {}), events).value;
    assert o !in s.holders;
    if h :| Holds(s, h) {
      assert !Takeable(s.lock, s.now);
    }
  }
}
