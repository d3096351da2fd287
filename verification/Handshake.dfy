/**
 That the handshake of AudioProtocol can always be carried through
 (server/lib/audio-owner-recovery.js, server/lib/audio-ownership-transaction.js): whatever
 concurrent recoveries and lost messages have left behind, any connected renderer can be
 made the only audible one, and the run never grants over a late session.
 */
module Handshake {
  import opened AudioProtocol
  import opened LateSessions
  import opened Wrappers

  /** A run every step of which is enabled and grants no owner over a late session. */
  ghost predicate Runs(c: Session, s: State, events: seq<Event>, t: State)
    decreases events
  {
    if events == [] then s == t
    else Enabled(c, s, events[0]) && Timely(s, events[0]) && Runs(c, Step(c, s, events[0]), events[1..], t)
  }

  lemma OneStep(c: Session, s: State, e: Event)
    requires Enabled(c, s, e) && Timely(s, e)
    ensures Runs(c, s, [e], Step(c, s, e))
  {
    hide Step, Enabled, Timely;
    assert [e][1..] == [];
    assert Runs(c, Step(c, s, e), [], Step(c, s, e));
  }

  lemma {:induction false} RunsOn(c: Session, s: State, a: seq<Event>, t: State, b: seq<Event>, u: State)
    requires Runs(c, s, a, t) && Runs(c, t, b, u)
    ensures Runs(c, s, a + b, u)
    decreases a
  {
    hide Step, Enabled, Timely;
    if a == [] {
      assert a + b == b;
    } else {
      assert (a + b)[1..] == a[1..] + b;
      RunsOn(c, Step(c, s, a[0]), a[1..], t, b, u);
    }
  }

  lemma {:induction false} RunKeeps(c: Session, s: State, events: seq<Event>, t: State)
    requires Inv(c, s) && Runs(c, s, events, t)
    ensures Inv(c, t)
    decreases events
  {
    hide Step, Enabled, Timely, Inv;
    if events != [] {
      StepKeepsInv(c, s, events[0]);
      RunKeeps(c, Step(c, s, events[0]), events[1..], t);
    }
  }

  // --- A revision above everything seen ---

  lemma {:induction false} Bound(numbers: set<nat>) returns (bound: nat)
    ensures forall n :: n in numbers ==> n < bound
    decreases |numbers|
  {
    bound := 0;
    if numbers != {} {
      var n :| n in numbers;
      bound := Bound(numbers - {n});
      assert forall m :: m in numbers ==> m == n || m in numbers - {n};
      if bound <= n {
        bound := n + 1;
      }
    }
  }

  lemma FreshRevision(s: State) returns (r: nat)
    ensures r > s.lastRevision
    ensures forall pl :: pl in s.stored ==> r > s.stored[pl].revision
    ensures forall p :: p in s.pages ==> r > Floor(s.pages[p].controller)
  {
    hide Floor;
    var revisions, floors := (set pl | pl in s.stored :: s.stored[pl].revision), (set p | p in s.pages :: Floor(s.pages[p].controller));
    var a := Bound(revisions);
    var b := Bound(floors);
    assert forall pl :: pl in s.stored ==> s.stored[pl].revision in revisions;
    assert forall p :: p in s.pages ==> Floor(s.pages[p].controller) in floors;
    r := s.lastRevision + 1 + a + b;
  }

  // --- Fencing every connected page ---

  function ConnectedPages(s: State): set<PageId> {
    set p | p in s.pages && s.pages[p].socket.Some?
  }

  function SocketsOf(s: State, pages: set<PageId>): set<SocketId> {
    set p | p in pages && p in s.pages && s.pages[p].socket.Some? :: s.pages[p].socket.value
  }

  function AtTheFence(page: Page, g: Grant): Page {
    page.(controller := Controller(page.controller.current, Some(g), true))
  }

  /** `t` is `s` after the pages in `done` have accepted the fence of `g`. */
  ghost predicate Fenced(s: State, g: Grant, done: set<PageId>, t: State) {
    && done <= ConnectedPages(s) && g.revision in s.open
    && t.pages == (map p | p in s.pages :: if p in done then AtTheFence(s.pages[p], g) else s.pages[p])
    && t == s.(pages := t.pages, open := s.open[g.revision := s.open[g.revision].(acked := SocketsOf(s, done))])
  }

  /** The fence of `g` has been sent to every connected page, each of which is below it. */
  ghost predicate Begun(s: State, g: Grant) {
    && g.revision in s.open && s.open[g.revision] == Transaction(g.owner, ConnectedSockets(s), {})
    && (forall p :: p in ConnectedPages(s) ==> FenceTo(s.pages[p].socket.value, g) in s.sent)
    && (forall p :: p in s.pages ==> g.revision > Floor(s.pages[p].controller))
  }

  lemma BeginFences(c: Session, s: State, g: Grant)
    requires g.revision > s.lastRevision && forall pl :: pl in s.stored ==> g.revision > s.stored[pl].revision
    requires forall p :: p in s.pages ==> g.revision > Floor(s.pages[p].controller)
    ensures Enabled(c, s, Begin(g.revision, g.owner))
    ensures var t := Step(c, s, Begin(g.revision, g.owner));
      Begun(t, g) && Fenced(t, g, {}, t) && t.pages == s.pages && t.stored == s.stored
  {
    hide Floor;
    var t := Step(c, s, Begin(g.revision, g.owner));
    assert ConnectedSockets(t) == ConnectedSockets(s);
    forall p | p in ConnectedPages(t) ensures FenceTo(t.pages[p].socket.value, g) in t.sent {
      assert t.pages[p].socket.value in ConnectedSockets(s);
    }
    assert SocketsOf(t, {}) == {};
    assert t.pages == map p | p in t.pages :: t.pages[p];
    assert t.open == t.open[g.revision := t.open[g.revision].(acked := {})];
  }

  lemma BelowAcceptsFence(k: Controller, g: Grant)
    requires g.revision > Floor(k)
    ensures AcceptsFence(k, g) && ReceiveFence(k, g) == Controller(k.current, Some(g), true)
  {
  }

  lemma FenceOne(c: Session, s: State, g: Grant, done: set<PageId>, t: State, p: PageId)
    requires Begun(s, g) && Fenced(s, g, done, t) && p in ConnectedPages(s) && p !in done
    ensures Enabled(c, t, DeliverFence(p, g)) && Timely(t, DeliverFence(p, g))
    ensures Fenced(s, g, done + {p}, Step(c, t, DeliverFence(p, g)))
  {
    BelowAcceptsFence(s.pages[p].controller, g);
    hide Floor, AcceptsFence, ReceiveFence;
    var page := s.pages[p];
    assert t.pages[p] == page;
    var u := Step(c, t, DeliverFence(p, g));
    assert page.socket.value in ConnectedSockets(s);
    assert SocketsOf(s, done + {p}) == SocketsOf(s, done) + {page.socket.value};
    assert u.pages == t.pages[p := AtTheFence(page, g)];
    assert u.open == s.open[g.revision := s.open[g.revision].(acked := SocketsOf(s, done + {p}))];
  }

  lemma {:induction false} FenceAll(c: Session, s: State, g: Grant, done: set<PageId>, t: State) returns (events: seq<Event>, u: State)
    requires Begun(s, g) && Fenced(s, g, done, t)
    ensures Runs(c, t, events, u) && Fenced(s, g, ConnectedPages(s), u)
    decreases |ConnectedPages(s) - done|
  {
    hide Begun, Enabled, Step, Timely;
    var rest := ConnectedPages(s) - done;
    if rest == {} {
      assert done == ConnectedPages(s);
      events, u := [], t;
    } else {
      var p :| p in rest;
      FenceOne(c, s, g, done, t, p);
      var next := Step(c, t, DeliverFence(p, g));
      assert ConnectedPages(s) - (done + {p}) == rest - {p};
      hide Fenced;
      events, u := FenceAll(c, s, g, done + {p}, next);
      OneStep(c, t, DeliverFence(p, g));
      RunsOn(c, t, [DeliverFence(p, g)], next, events, u);
      events := [DeliverFence(p, g)] + events;
    }
  }

  /** Once everyone is fenced the owner can be granted. */
  lemma AllFencedCanGrant(c: Session, s: State, g: Grant, u: State, y: PageId)
    requires Begun(s, g) && Fenced(s, g, ConnectedPages(s), u) && Inv(c, u)
    requires y in ConnectedPages(s) && HasStored(c, s, y) && g.owner == Some(s.pages[y].device)
    requires g.revision > s.stored[c.playlistOf[s.pages[y].device]].revision
    ensures CanGrant(c, u, g.revision, y) && Timely(u, Commit(g.revision, true))
  {
    hide Inv, Floor;
    assert u.pages[y] == AtTheFence(s.pages[y], g);
    forall k | k in ConnectedSockets(s) ensures k in SocketsOf(s, ConnectedPages(s)) {
      var p :| p in s.pages && s.pages[p].socket == Some(k);
      assert p in ConnectedPages(s);
    }
    assert u.open[g.revision].fenced <= u.open[g.revision].acked;
    assert s.pages[y].socket.value in ConnectedSockets(s);
    forall p | Connected(u, p) ensures u.pages[p].socket.value in u.open[g.revision].fenced {
      assert p in ConnectedPages(s);
    }
    FencedAcceptsItself(s.pages[y].controller, g);
  }

  lemma FencedAcceptsItself(k: Controller, g: Grant)
    requires g.revision > Floor(k)
    ensures AcceptsFence(Controller(k.current, Some(g), true), g)
  {
  }

  lemma GrantRuns(c: Session, u: State, r: nat, y: PageId) returns (events: seq<Event>, t: State)
    requires CanGrant(c, u, r, y) && Timely(u, Commit(r, true))
    ensures Runs(c, u, events, t) && t == GrantAndDeliver(c, u, r, y)
  {
    hide Inv, Step, AtFence, GrantAndDeliver;
    var commit, send, deliver := Commit(r, true), SendStored(y), DeliverPolicy(y, Grant(r, u.open[r].owner));
    GrantIsDelivered(c, u, r, y);
    var s1 := Step(c, u, commit);
    var s2 := Step(c, s1, send);
    t := GrantAndDeliver(c, u, r, y);
    GrantIsSteps(c, u, r, y);
    OneStep(c, u, commit);
    OneStep(c, s1, send);
    OneStep(c, s2, deliver);
    RunsOn(c, s1, [send], s2, [deliver], t);
    RunsOn(c, u, [commit], s1, [send] + [deliver], t);
    events := [commit] + ([send] + [deliver]);
  }

  lemma GrantIsSteps(c: Session, u: State, r: nat, y: PageId)
    requires CanGrant(c, u, r, y)
    ensures var s1 := Step(c, u, Commit(r, true));
      Enabled(c, s1, SendStored(y)) &&
      var s2 := Step(c, s1, SendStored(y));
      Enabled(c, s2, DeliverPolicy(y, Grant(r, u.open[r].owner))) &&
      GrantAndDeliver(c, u, r, y) == Step(c, s2, DeliverPolicy(y, Grant(r, u.open[r].owner)))
  {
    hide Step;
    GrantIsDelivered(c, u, r, y);
  }

  lemma OnlyGranted(c: Session, s: State, g: Grant, u: State, y: PageId)
    requires Fenced(s, g, ConnectedPages(s), u) && CanGrant(c, u, g.revision, y)
    ensures var t := GrantAndDeliver(c, u, g.revision, y);
      Audible(t, y) && forall p :: Audible(t, p) ==> p == y
  {
    GrantReachesOwner(c, u, g.revision, y);
    hide Inv, GrantAndDeliver, Step, Enabled;
    var t := GrantAndDeliver(c, u, g.revision, y);
    forall p | p != y ensures !Audible(t, p) {
      assert Connected(t, p) ==> p in ConnectedPages(s) && t.pages[p] == AtTheFence(s.pages[p], g);
    }
  }

  /** From every state that the protocol can be in, any connected renderer with a playlist can
      be made audible, and is then the only one. */
  lemma AnyRendererCanBeGranted(c: Session, s: State, y: PageId) returns (events: seq<Event>, t: State)
    requires Inv(c, s) && Connected(s, y) && HasStored(c, s, y)
    ensures Runs(c, s, events, t) && Inv(c, t)
    ensures Audible(t, y) && forall p :: Audible(t, p) ==> p == y
  {
    var r := FreshRevision(s);
    var g := Grant(r, Some(s.pages[y].device));
    hide Inv, Floor, Begun, Fenced, CanGrant;
    BeginFences(c, s, g);
    var begin := Begin(r, g.owner);
    var begun := Step(c, s, begin);
    assert y in ConnectedPages(begun) && HasStored(c, begun, y);
    hide Step, Enabled;
    OneStep(c, s, begin);
    var fencing, fenced := FenceAll(c, begun, g, {}, begun);
    RunsOn(c, s, [begin], begun, fencing, fenced);
    RunKeeps(c, s, [begin] + fencing, fenced);
    AllFencedCanGrant(c, begun, g, fenced, y);
    var granting;
    granting, t := GrantRuns(c, fenced, r, y);
    OnlyGranted(c, begun, g, fenced, y);
    events := [begin] + fencing + granting;
    RunsOn(c, s, [begin] + fencing, fenced, granting, t);
    RunKeeps(c, s, events, t);
  }

  // --- What single steps leave ---

  /** A page that reloads, joins, leaves or is blocked is silent until it accepts a policy. */
  lemma LeavingIsSilent(c: Session, s: State, e: Event)
    requires Enabled(c, s, e) && (e.OpenPage? || e.Connect? || e.Disconnect? || e.BlockPage?)
    ensures var t := Step(c, s, e);
      && e.page in t.pages && !AudioAllowed(t.pages[e.page].controller, t.pages[e.page].device) && !Audible(t, e.page)
      && (e.Disconnect? ==> t.pages[e.page].socket.None?)
      && (e.Connect? ==> t.pages[e.page].socket == Some(s.nextSocket) && t.nextSocket == s.nextSocket + 1)
  {
  }

  /** A page that is offline goes by the policy it has cached. */
  lemma CachedPolicyApplies(c: Session, s: State, p: PageId, r: nat)
    requires Enabled(c, s, ApplyCached(p, r)) && AcceptsPolicy(s.pages[p].controller, Grant(r, s.committed[r]))
    ensures Step(c, s, ApplyCached(p, r)).pages[p].controller == Controller(Some(Grant(r, s.committed[r])), None, false)
  {
  }

  /** A recovery that fails mutes: every older playlist then stores its revision without an
      owner, and whoever accepts that is silent. */
  lemma FailedCommitMutes(c: Session, s: State, r: nat)
    requires Enabled(c, s, Commit(r, false))
    ensures var t := Step(c, s, Commit(r, false));
      && t.pages == s.pages && r in t.committed && t.committed[r].None? && r !in t.open && t.stored.Keys == s.stored.Keys
      && (forall pl :: pl in s.stored ==> t.stored[pl] == if r > s.stored[pl].revision then Grant(r, None) else s.stored[pl])
    ensures forall k, d :: AcceptsPolicy(k, Grant(r, None)) ==> !AudioAllowed(ReceivePolicy(k, Grant(r, None)), d)
  {
  }
}
