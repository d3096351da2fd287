/**
 What the step system of AudioProtocol allows when a session joins between a fence and its
 commit (server/lib/audio-owner-recovery.js): exactly when a grant can go wrong.
 */
module LateSessions {
  import opened AudioProtocol
  import opened Wrappers

  /** A page of the proposed owner that still sits at the fence of `r`. */
  ghost predicate AtFence(c: Session, s: State, r: nat, y: PageId) {
    && r in s.open && s.open[r].owner.Some?
    && Connected(s, y) && s.open[r].owner == Some(s.pages[y].device)
    && s.pages[y].controller.fence == Some(Grant(r, s.open[r].owner))
    && AcceptsFence(s.pages[y].controller, Grant(r, s.open[r].owner))
    && HasStored(c, s, y) && r > s.stored[c.playlistOf[s.pages[y].device]].revision
  }

  /** The transaction of `r` can be committed with its owner's page `y` at the fence. */
  ghost predicate CanGrant(c: Session, s: State, r: nat, y: PageId) {
    Inv(c, s) && AtFence(c, s, r, y) && Enabled(c, s, Commit(r, true))
  }

  lemma GrantIsStored(c: Session, s: State, r: nat, y: PageId)
    requires CanGrant(c, s, r, y)
    ensures var s1 := Step(c, s, Commit(r, true));
      && s1.pages == s.pages && Connected(s1, y) && HasStored(c, s1, y)
      && s1.stored[c.playlistOf[s.pages[y].device]] == Grant(r, s.open[r].owner)
  {
    hide Inv;
  }

  lemma GrantIsAccepted(c: Session, s: State, r: nat, y: PageId)
    requires CanGrant(c, s, r, y)
    ensures ReceivePolicy(s.pages[y].controller, Grant(r, s.open[r].owner)) == Controller(Some(Grant(r, s.open[r].owner)), None, false)
  {
    var k := s.pages[y].controller;
    assert PageInv(s.committed, s.pages[y]);
    assert k.current.Some? ==> k.current.value.revision != r;
  }

  lemma GrantIsDelivered(c: Session, s: State, r: nat, y: PageId)
    requires CanGrant(c, s, r, y)
    ensures var s1 := Step(c, s, Commit(r, true));
      Enabled(c, s1, SendStored(y)) &&
      var s2 := Step(c, s1, SendStored(y));
      var deliver := DeliverPolicy(y, Grant(r, s.open[r].owner));
      Enabled(c, s2, deliver) &&
      Step(c, s2, deliver).pages == s.pages[y := s.pages[y].(controller := Controller(Some(Grant(r, s.open[r].owner)), None, false))]
  {
    hide Step, ReceivePolicy, AcceptsFence;
    GrantIsStored(c, s, r, y);
    GrantIsAccepted(c, s, r, y);
    hide Inv;
    var s1 := Step(c, s, Commit(r, true));
    assert Enabled(c, s1, SendStored(y));
    SendingStep(c, s1, SendStored(y));
    var s2 := Step(c, s1, SendStored(y));
    DeliveryStep(c, s2, DeliverPolicy(y, Grant(r, s.open[r].owner)));
  }

  /** Committing the grant, sending the stored policy to that page and delivering it. */
  ghost function GrantAndDeliver(c: Session, s: State, r: nat, y: PageId): (t: State)
    requires CanGrant(c, s, r, y)
    ensures t.pages == s.pages[y := s.pages[y].(controller := Controller(Some(Grant(r, s.open[r].owner)), None, false))]
  {
    GrantIsDelivered(c, s, r, y);
    Step(c, Step(c, Step(c, s, Commit(r, true)), SendStored(y)), DeliverPolicy(y, Grant(r, s.open[r].owner)))
  }

  lemma GrantReachesOwner(c: Session, s: State, r: nat, y: PageId)
    requires CanGrant(c, s, r, y)
    ensures var t := GrantAndDeliver(c, s, r, y);
      Audible(t, y) && forall x :: x != y && Audible(s, x) ==> Audible(t, x)
  {
    hide Inv, Enabled, Step, GrantAndDeliver;
  }

  /** A connected page that the fence of `r` did not reach and that joined on an older
      stored policy: what a server could look for before it commits. */
  ghost predicate Late(s: State, r: nat, x: PageId) {
    r in s.open && Connected(s, x) && s.pages[x].socket.value !in s.open[r].fenced && s.pages[x].base < r
  }

  /** A policy under way to the page's session, or stored for its playlist. */
  ghost predicate OnOffer(c: Session, s: State, x: PageId, g: Grant) {
    && Connected(s, x) && HasStored(c, s, x)
    && (PolicyTo(s.pages[x].socket.value, g) in s.sent || g == s.stored[c.playlistOf[s.pages[x].device]])
  }

  /** The page would accept such a policy and become audible. */
  ghost predicate WouldSound(c: Session, s: State, x: PageId, g: Grant) {
    OnOffer(c, s, x, g) && g.owner == Some(s.pages[x].device) && AcceptsPolicy(s.pages[x].controller, g)
  }

  ghost predicate MaySound(c: Session, s: State, x: PageId) {
    Audible(s, x) || exists g :: WouldSound(c, s, x, g)
  }

  /** Only sending and delivering stored policies. */
  ghost predicate Deliveries(events: seq<Event>) {
    forall e :: e in events ==> e.SendStored? || e.DeliverPolicy?
  }

  ghost predicate Reaches(c: Session, s: State, events: seq<Event>, t: State)
    decreases events
  {
    if events == [] then s == t
    else Enabled(c, s, events[0]) && Reaches(c, Step(c, s, events[0]), events[1..], t)
  }

  /** A way to commit the grant of `r`, between deliveries, after which two devices are audible. */
  ghost predicate Splits(c: Session, s: State, r: nat, before: seq<Event>, u: State, after: seq<Event>, t: State) {
    && Deliveries(before) && Reaches(c, s, before, u) && Enabled(c, u, Commit(r, true))
    && Deliveries(after) && Reaches(c, Step(c, u, Commit(r, true)), after, t)
    && !AtMostOneAudible(t)
  }

  /** An accepted policy is accepted by whatever precedes it. */
  lemma AcceptsBefore(k: Controller, g: Grant, h: Grant)
    requires AcceptsPolicy(k, g) && AcceptsPolicy(ReceivePolicy(k, g), h)
    ensures AcceptsPolicy(k, h)
  {
  }

  /** One page, some deliveries later: it accepts no more than before, and if it is audible
      it was, or it accepted a policy then on offer or the grant. */
  ghost predicate PageFollows(c: Session, s: State, granted: Grant, p: PageId, page: Page)
    requires p in s.pages
  {
    var old', k := s.pages[p].controller, page.controller;
    && page.(controller := old') == s.pages[p]
    && (forall g :: AcceptsPolicy(k, g) ==> AcceptsPolicy(old', g))
    && (AudioAllowed(k, page.device) ==>
          AudioAllowed(old', page.device) || k.current.value == granted || WouldSound(c, s, p, k.current.value))
  }

  ghost predicate Follows(c: Session, s: State, granted: Grant, u: State) {
    && u.pages.Keys == s.pages.Keys
    && (forall p :: p in s.pages ==> PageFollows(c, s, granted, p, u.pages[p]))
    && (forall pl :: pl in u.stored ==> pl in s.stored && (u.stored[pl] == s.stored[pl] || u.stored[pl] == granted))
    && (forall p, g :: Connected(s, p) && PolicyTo(s.pages[p].socket.value, g) in u.sent ==> g == granted || OnOffer(c, s, p, g))
  }

  lemma PageReceives(c: Session, s: State, granted: Grant, p: PageId, page: Page, g: Grant)
    requires p in s.pages && PageFollows(c, s, granted, p, page) && (g == granted || OnOffer(c, s, p, g))
    ensures PageFollows(c, s, granted, p, page.(controller := ReceivePolicy(page.controller, g)))
  {
    hide OnOffer;
    var k := page.controller;
    if AcceptsPolicy(k, g) {
      forall h | AcceptsPolicy(ReceivePolicy(k, g), h) ensures AcceptsPolicy(s.pages[p].controller, h) {
        AcceptsBefore(k, g, h);
      }
      hide AcceptsPolicy;
    }
  }

  /** What a delivery does. */
  lemma DeliveryStep(c: Session, u: State, e: Event)
    requires Enabled(c, u, e) && e.DeliverPolicy?
    ensures var page := u.pages[e.page];
      && Connected(u, e.page) && PolicyTo(page.socket.value, e.grant) in u.sent
      && Step(c, u, e) == u.(pages := u.pages[e.page := page.(controller := ReceivePolicy(page.controller, e.grant))])
  {
  }

  lemma DeliveryFollows(c: Session, s: State, granted: Grant, u: State, e: Event)
    requires Follows(c, s, granted, u) && Enabled(c, u, e) && e.DeliverPolicy?
    ensures Follows(c, s, granted, Step(c, u, e))
  {
    DeliveryStep(c, u, e);
    SamePlace(c, s, granted, e.page, u.pages[e.page]);
    PageReceives(c, s, granted, e.page, u.pages[e.page], e.grant);
    hide Step, Enabled, PageFollows, ReceivePolicy, OnOffer;
  }

  lemma SamePlace(c: Session, s: State, granted: Grant, p: PageId, page: Page)
    requires p in s.pages && PageFollows(c, s, granted, p, page)
    ensures page.device == s.pages[p].device && page.socket == s.pages[p].socket && page.base == s.pages[p].base
  {
    hide AcceptsPolicy, OnOffer;
  }

  /** What sending does. */
  lemma SendingStep(c: Session, u: State, e: Event)
    requires Enabled(c, u, e) && e.SendStored?
    ensures Connected(u, e.page) && HasStored(c, u, e.page)
    ensures Step(c, u, e) ==
      u.(sent := u.sent + {PolicyTo(u.pages[e.page].socket.value, u.stored[c.playlistOf[u.pages[e.page].device]])})
  {
  }

  lemma SendingFollows(c: Session, s: State, granted: Grant, u: State, e: Event)
    requires SocketInv(s) && Follows(c, s, granted, u) && Enabled(c, u, e) && e.SendStored?
    ensures Follows(c, s, granted, Step(c, u, e))
  {
    SendingStep(c, u, e);
    SamePlace(c, s, granted, e.page, u.pages[e.page]);
    hide Step, Enabled, PageFollows;
    var u' := Step(c, u, e);
    forall p, g | Connected(s, p) && PolicyTo(s.pages[p].socket.value, g) in u'.sent
      ensures g == granted || OnOffer(c, s, p, g)
    {
      if PolicyTo(s.pages[p].socket.value, g) !in u.sent {
        assert p == e.page;
      }
    }
  }

  lemma {:induction false} DeliveriesFollow(c: Session, s: State, granted: Grant, u: State, events: seq<Event>, t: State)
    requires SocketInv(s) && Follows(c, s, granted, u)
    requires Deliveries(events) && Reaches(c, u, events, t)
    ensures Follows(c, s, granted, t)
    decreases events
  {
    hide Follows, Step, Enabled, SocketInv;
    if events != [] {
      assert events[0] in events;
      if events[0].DeliverPolicy? {
        DeliveryFollows(c, s, granted, u, events[0]);
      } else {
        SendingFollows(c, s, granted, u, events[0]);
      }
      DeliveriesFollow(c, s, granted, Step(c, u, events[0]), events[1..], t);
    }
  }

  lemma CommitFollows(c: Session, s: State, r: nat, u: State)
    requires r in s.open && s.open == u.open && Follows(c, s, Grant(r, s.open[r].owner), u) && Enabled(c, u, Commit(r, true))
    ensures Follows(c, s, Grant(r, s.open[r].owner), Step(c, u, Commit(r, true)))
  {
    hide PageFollows, OnOffer;
  }

  lemma FollowsItself(c: Session, s: State, granted: Grant)
    requires StoreInv(c, s) && PagesInv(c, s)
    ensures Follows(c, s, granted, s)
  {
    hide AcceptsPolicy, AudioAllowed;
  }

  lemma {:induction false} DeliveriesKeepOpen(c: Session, s: State, events: seq<Event>, t: State)
    requires Deliveries(events) && Reaches(c, s, events, t)
    ensures t.open == s.open
    decreases events
  {
    if events != [] {
      assert events[0] in events;
      DeliveriesKeepOpen(c, Step(c, s, events[0]), events[1..], t);
    }
  }

  /** Two audible devices after the commit: one of them may sound already. */
  lemma SplitNeedsSound(c: Session, s: State, r: nat, before: seq<Event>, u: State, after: seq<Event>, t: State) returns (x: PageId)
    requires Inv(c, s) && r in s.open && Splits(c, s, r, before, u, after, t)
    ensures x in s.pages && Some(s.pages[x].device) != s.open[r].owner && MaySound(c, s, x)
  {
    hide Reaches, Enabled, Step, Follows, PagesInv, SocketInv, StoreInv, BaseInv, MailInv, GrantInv, AckInv;
    var granted := Grant(r, s.open[r].owner);
    FollowsItself(c, s, granted);
    DeliveriesFollow(c, s, granted, s, before, u);
    DeliveriesKeepOpen(c, s, before, u);
    CommitFollows(c, s, r, u);
    DeliveriesFollow(c, s, granted, Step(c, u, Commit(r, true)), after, t);
    x := SplitSounds(c, s, granted, t);
  }

  lemma SplitSounds(c: Session, s: State, granted: Grant, t: State) returns (x: PageId)
    requires Follows(c, s, granted, t) && !AtMostOneAudible(t)
    ensures x in s.pages && Some(s.pages[x].device) != granted.owner && MaySound(c, s, x)
  {
    hide AcceptsPolicy, OnOffer, WouldSound;
    var p: PageId, q: PageId :| Audible(t, p) && Audible(t, q) && t.pages[p].device != t.pages[q].device;
    x := if Some(t.pages[p].device) == granted.owner then q else p;
    assert PageFollows(c, s, granted, x, t.pages[x]);
  }

  /** At the fence nobody but a late page may sound for another device. */
  lemma SoundIsLate(c: Session, s: State, r: nat, y: PageId, x: PageId)
    requires CanGrant(c, s, r, y) && x in s.pages && MaySound(c, s, x)
    ensures Late(s, r, x)
  {
    var g: Grant;
    if Audible(s, x) {
      g := s.pages[x].controller.current.value;
      assert PageInv(s.committed, s.pages[x]);
    } else {
      g :| WouldSound(c, s, x, g);
    }
    assert IsCommitted(s.committed, g) && g.owner.Some?;
    assert Caught(s.pages[y], g.revision);
    assert g.revision < r;
  }

  lemma DeliveredSounds(c: Session, s: State, r: nat, y: PageId, x: PageId, g: Grant)
    requires CanGrant(c, s, r, y) && WouldSound(c, s, x, g) && PolicyTo(s.pages[x].socket.value, g) in s.sent
    requires s.pages[x].device != s.pages[y].device
    ensures Enabled(c, s, DeliverPolicy(x, g))
    ensures var u := Step(c, s, DeliverPolicy(x, g));
      CanGrant(c, u, r, y) && Audible(u, x) && u.pages[x].device != u.pages[y].device
  {
    hide Inv;
    StepKeepsInv(c, s, DeliverPolicy(x, g));
    DeliveryStep(c, s, DeliverPolicy(x, g));
    hide Step;
  }

  lemma SentIsUnderWay(c: Session, s: State, r: nat, y: PageId, x: PageId, g: Grant)
    requires CanGrant(c, s, r, y) && WouldSound(c, s, x, g) && g == s.stored[c.playlistOf[s.pages[x].device]]
    ensures Enabled(c, s, SendStored(x))
    ensures var v := Step(c, s, SendStored(x));
      CanGrant(c, v, r, y) && WouldSound(c, v, x, g) && PolicyTo(v.pages[x].socket.value, g) in v.sent && v.pages == s.pages
  {
    hide Inv;
    StepKeepsInv(c, s, SendStored(x));
    SendingStep(c, s, SendStored(x));
    hide Step, AcceptsPolicy;
  }

  lemma DeliveringSounds(c: Session, s: State, r: nat, y: PageId, x: PageId) returns (before: seq<Event>, u: State)
    requires CanGrant(c, s, r, y)
    requires x in s.pages && s.pages[x].device != s.pages[y].device && MaySound(c, s, x)
    ensures Deliveries(before) && Reaches(c, s, before, u)
    ensures CanGrant(c, u, r, y) && Audible(u, x) && u.pages[x].device != u.pages[y].device
  {
    hide CanGrant, Step, Enabled, AudioAllowed, AcceptsPolicy;
    before, u := [], s;
    if !Audible(s, x) {
      var g :| WouldSound(c, s, x, g);
      var send, deliver := SendStored(x), DeliverPolicy(x, g);
      if PolicyTo(s.pages[x].socket.value, g) in s.sent {
        DeliveredSounds(c, s, r, y, x, g);
        before, u := [deliver], Step(c, s, deliver);
        OneDelivery(c, s, deliver);
      } else {
        SentIsUnderWay(c, s, r, y, x, g);
        var v := Step(c, s, send);
        DeliveredSounds(c, v, r, y, x, g);
        OneDelivery(c, v, deliver);
        before, u := [send, deliver], Step(c, v, deliver);
        assert before[1..] == [deliver];
      }
    }
  }

  lemma OneDelivery(c: Session, s: State, e: Event)
    requires Enabled(c, s, e)
    ensures Reaches(c, s, [e], Step(c, s, e))
  {
    hide Step, Enabled;
    assert [e][1..] == [];
    assert Reaches(c, Step(c, s, e), [], Step(c, s, e));
  }

  /** The deliveries behind GrantAndDeliver. */
  lemma GrantEvents(c: Session, s: State, r: nat, y: PageId) returns (after: seq<Event>, t: State)
    requires CanGrant(c, s, r, y)
    ensures t == GrantAndDeliver(c, s, r, y)
    ensures Deliveries(after) && Reaches(c, Step(c, s, Commit(r, true)), after, t)
  {
    t := GrantAndDeliver(c, s, r, y);
    hide Inv, Step, Enabled, AtFence;
    var send, deliver := SendStored(y), DeliverPolicy(y, Grant(r, s.open[r].owner));
    var committed := Step(c, s, Commit(r, true));
    OneDelivery(c, Step(c, committed, send), deliver);
    after := [send, deliver];
    assert after[1..] == [deliver];
  }

  lemma LatePageSplits(c: Session, s: State, r: nat, y: PageId, x: PageId)
    requires CanGrant(c, s, r, y)
    requires x in s.pages && s.pages[x].device != s.pages[y].device && MaySound(c, s, x)
    ensures exists before, u, after, t :: Splits(c, s, r, before, u, after, t)
  {
    hide MaySound, Reaches, Inv, AtFence, Enabled, Step;
    var before, u := DeliveringSounds(c, s, r, y, x);
    GrantReachesOwner(c, u, r, y);
    var after, t := GrantEvents(c, u, r, y);
    hide GrantAndDeliver;
    assert Audible(t, x) && Audible(t, y);
    assert Splits(c, s, r, before, u, after, t);
  }

  /** Granting an owner whose page still sits at the fence can be continued to two audible
      devices exactly when some late page of another device is audible or would still accept
      the policy stored or under way for it. */
  lemma GrantIsSafeIff(c: Session, s: State, r: nat, y: PageId)
    requires CanGrant(c, s, r, y)
    ensures (exists before, u, after, t :: Splits(c, s, r, before, u, after, t)) <==>
      (exists x :: Late(s, r, x) && s.pages[x].device != s.pages[y].device && MaySound(c, s, x))
  {
    hide Inv, Enabled, Step, MaySound, Reaches, Splits;
    if before, u, after, t :| Splits(c, s, r, before, u, after, t) {
      var x := SplitNeedsSound(c, s, r, before, u, after, t);
      SoundIsLate(c, s, r, y, x);
    }
    if x :| Late(s, r, x) && s.pages[x].device != s.pages[y].device && MaySound(c, s, x) {
      LatePageSplits(c, s, r, y, x);
    }
  }

  /** Hence the check for late sessions excludes it, whatever those sessions hold. */
  lemma NoLateSessionIsSafe(c: Session, s: State, r: nat, y: PageId)
    requires CanGrant(c, s, r, y) && NoLateSession(s, r)
    ensures !exists before, u, after, t :: Splits(c, s, r, before, u, after, t)
  {
    GrantIsSafeIff(c, s, r, y);
    hide Splits, MaySound, CanGrant;
  }

  const EXAMPLE := Session(map["a" := "pa", "b" := "pb"])
  const OLD_GRANT := Grant(1, Some("a"))
  const NEW_GRANT := Grant(2, Some("b"))
  const EXAMPLE_STORE: map<PlaylistId, Grant> := map["pa" := OLD_GRANT, "pb" := OLD_GRANT]

  /** `a` owns the session but is offline; a recovery has fenced `b`. */
  lemma RecoveryUnderWay() returns (s: State, events: seq<Event>, t: State)
    ensures Initial(EXAMPLE, s) && Exec(EXAMPLE, s, events, Unrestricted) == Some(t)
    ensures t == State(2, map[0 := Page("a", None, 0, COLD_START), 1 := Page("b", Some(0), 1, COLD_START)],
                       map[2 := Transaction(Some("b"), {0}, {})], EXAMPLE_STORE, map[1 := Some("a")],
                       {FenceTo(0, NEW_GRANT)}, 1)
  {
    s := State(1, map[], map[], EXAMPLE_STORE, map[1 := Some("a")], {}, 0);
    assert InitialGrant(s, OLD_GRANT);
    events, t := [], s;
    events, t := Extend(EXAMPLE, s, events, t, OpenPage(0, "a"));
    events, t := Extend(EXAMPLE, s, events, t, OpenPage(1, "b"));
    events, t := Extend(EXAMPLE, s, events, t, Connect(1));
    assert t.pages == map[0 := Page("a", None, 0, COLD_START), 1 := Page("b", Some(0), 1, COLD_START)];
    assert ConnectedSockets(t) == {0} by {
      assert t.pages[1].socket.value == 0;
    }
    events, t := Extend(EXAMPLE, s, events, t, Begin(2, Some("b")));
  }

  /** `a` joins again on the old stored policy, which is sent to it. */
  lemma OwnerReturns() returns (s: State, events: seq<Event>, t: State)
    ensures Initial(EXAMPLE, s) && Exec(EXAMPLE, s, events, Unrestricted) == Some(t)
    ensures t == State(2, map[0 := Page("a", Some(1), 1, COLD_START), 1 := Page("b", Some(0), 1, COLD_START)],
                       map[2 := Transaction(Some("b"), {0}, {})], EXAMPLE_STORE, map[1 := Some("a")],
                       {FenceTo(0, NEW_GRANT), PolicyTo(1, OLD_GRANT)}, 2)
  {
    s, events, t := RecoveryUnderWay();
    hide Exec, Initial;
    events, t := Extend(EXAMPLE, s, events, t, Connect(0));
    events, t := Extend(EXAMPLE, s, events, t, SendStored(0));
  }

  /** `a` is audible again, and `b` is at the fence. */
  lemma OwnerSounds() returns (s: State, events: seq<Event>, t: State)
    ensures Initial(EXAMPLE, s) && Exec(EXAMPLE, s, events, Unrestricted) == Some(t)
    ensures t == State(2, map[0 := Page("a", Some(1), 1, Controller(Some(OLD_GRANT), None, false)),
                              1 := Page("b", Some(0), 1, Controller(None, Some(NEW_GRANT), true))],
                       map[2 := Transaction(Some("b"), {0}, {0})], EXAMPLE_STORE, map[1 := Some("a")],
                       {FenceTo(0, NEW_GRANT), PolicyTo(1, OLD_GRANT)}, 2)
  {
    s, events, t := OwnerReturns();
    hide Exec, Initial;
    events, t := Extend(EXAMPLE, s, events, t, DeliverPolicy(0, OLD_GRANT));
    assert t.open == map[2 := Transaction(Some("b"), {0}, {})];
    events, t := Extend(EXAMPLE, s, events, t, DeliverFence(1, NEW_GRANT));
    assert t.open[2] == Transaction(Some("b"), {0}, {0});
    assert t.open == map[2 := Transaction(Some("b"), {0}, {0})];
    assert t.pages[1] == Page("b", Some(0), 1, Controller(None, Some(NEW_GRANT), true));
  }

  /** The condition is needed: the recovery that fenced only `b` now grants it. */
  lemma LateSessionBreaksSafety() returns (s: State, events: seq<Event>)
    ensures Initial(EXAMPLE, s) && Exec(EXAMPLE, s, events, Unrestricted).Some?
    ensures !AtMostOneAudible(Exec(EXAMPLE, s, events, Unrestricted).value)
  {
    var t;
    s, events, t := OwnerSounds();
    hide Exec, Initial;
    events, t := Extend(EXAMPLE, s, events, t, Commit(2, true));
    events, t := Extend(EXAMPLE, s, events, t, SendStored(1));
    events, t := Extend(EXAMPLE, s, events, t, DeliverPolicy(1, NEW_GRANT));
    assert Audible(t, 0) && Audible(t, 1);
  }

  lemma Extend(c: Session, s: State, events: seq<Event>, t: State, e: Event) returns (longer: seq<Event>, t': State)
    requires Exec(c, s, events, Unrestricted) == Some(t) && Enabled(c, t, e)
    ensures longer == events + [e] && t' == Step(c, t, e)
    ensures Exec(c, s, longer, Unrestricted) == Some(t')
  {
    longer, t' := events + [e], Step(c, t, e);
    assert longer[..|longer| - 1] == events;
  }
}
