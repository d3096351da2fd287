/**
 The ownership protocol as a step system: transactions on the server, audio policy
 controllers in the renderer pages, and a network that delays, reorders, repeats and
 loses messages (server/lib/audio-owner-recovery.js, audio-ownership-transaction.js,
 audio-ownership.js and server/player/audio-policy.js).

 One ownership session with a fixed set of participant devices. A revision belongs to
 one transaction (AudioRecovery.RevisionsIncrease), a fence succeeds only when every
 fenced session acknowledged (AudioFence.FenceCommitsIff), and stamping a playlist is
 a write guarded by the revision (AudioPolicy.StampIsRevisionGuarded).
 */
module AudioProtocol {
  import opened Wrappers

  type Device = string
  type PlaylistId = string
  type PageId = nat
  type SocketId = nat

  /** The part of a policy that decides audibility. */
  datatype Grant = Grant(revision: nat, owner: Option<Device>)

  // --- The renderer page ---

  datatype Controller = Controller(current: Option<Grant>, fence: Option<Grant>, blocked: bool)

  const COLD_START := Controller(None, None, true)

  function RevisionOf(g: Option<Grant>): nat {
    if g.Some? then g.value.revision else 0
  }

  /** The newest revision the controller has accepted as policy or fence. */
  function Floor(c: Controller): nat {
    if RevisionOf(c.current) > RevisionOf(c.fence) then RevisionOf(c.current) else RevisionOf(c.fence)
  }

  function Block(c: Controller): Controller {
    c.(blocked := true)
  }

  predicate AcceptsFence(c: Controller, g: Grant) {
    g.revision >= Floor(c) && (c.fence.Some? && c.fence.value.revision == g.revision ==> c.fence.value == g)
  }

  /** A rejected message blocks the page as well. */
  function ReceiveFence(c: Controller, g: Grant): Controller {
    if AcceptsFence(c, g) then Controller(c.current, Some(g), true) else Block(c)
  }

  predicate AcceptsPolicy(c: Controller, g: Grant) {
    && (c.fence.Some? ==> g.revision >= c.fence.value.revision)
    && (c.fence.Some? && g.revision == c.fence.value.revision ==> g.owner.None? || g.owner == c.fence.value.owner)
    && (c.current.Some? ==> g.revision >= c.current.value.revision)
    && (c.current.Some? && g.revision == c.current.value.revision ==> g == c.current.value)
  }

  function ReceivePolicy(c: Controller, g: Grant): Controller {
    if AcceptsPolicy(c, g) then Controller(Some(g), None, false) else Block(c)
  }

  predicate AudioAllowed(c: Controller, device: Device) {
    !c.blocked && c.current.Some? && c.current.value.owner == Some(device)
  }

  /** `base` is the revision stored for the page's playlist when its socket joined. */
  datatype Page = Page(device: Device, socket: Option<SocketId>, base: nat, controller: Controller)

  // --- The server and the network ---

  /** An issued transaction that has not committed: the sockets it fenced and the
      acknowledgements it holds. */
  datatype Transaction = Transaction(owner: Option<Device>, fenced: set<SocketId>, acked: set<SocketId>)

  datatype Message =
    | FenceTo(socket: SocketId, grant: Grant)
    | PolicyTo(socket: SocketId, grant: Grant)

  datatype State = State(
    lastRevision: nat,
    pages: map<PageId, Page>,
    open: map<nat, Transaction>,
    stored: map<PlaylistId, Grant>,
    committed: map<nat, Option<Device>>,
    sent: set<Message>,
    nextSocket: SocketId)

  /** The participants of the session and the playlist each one follows. */
  datatype Session = Session(playlistOf: map<Device, PlaylistId>)

  predicate Connected(s: State, p: PageId) {
    p in s.pages && s.pages[p].socket.Some?
  }

  /** The page's device has a stored playlist. */
  predicate HasStored(c: Session, s: State, p: PageId)
    requires p in s.pages
  {
    s.pages[p].device in c.playlistOf && c.playlistOf[s.pages[p].device] in s.stored
  }

  function ConnectedSockets(s: State): set<SocketId> {
    set p | p in s.pages && s.pages[p].socket.Some? :: s.pages[p].socket.value
  }

  datatype Event =
    | OpenPage(page: PageId, device: Device)
    | ApplyCached(page: PageId, revision: nat)
    | Connect(page: PageId)
    | Disconnect(page: PageId)
    | BlockPage(page: PageId)
    | Begin(revision: nat, owner: Option<Device>)
    | Commit(revision: nat, granted: bool)
    | SendStored(page: PageId)
    | DeliverFence(page: PageId, grant: Grant)
    | DeliverPolicy(page: PageId, grant: Grant)

  predicate Enabled(c: Session, s: State, e: Event) {
    match e
    case OpenPage(p, d) => p !in s.pages && d in c.playlistOf
    case ApplyCached(p, r) => p in s.pages && s.pages[p].socket.None? && r in s.committed
    case Connect(p) => p in s.pages && s.pages[p].socket.None? && HasStored(c, s, p)
    case Disconnect(p) => Connected(s, p)
    case BlockPage(p) => p in s.pages
    case Begin(r, owner) => r > s.lastRevision && forall pl :: pl in s.stored ==> r > s.stored[pl].revision
    case Commit(r, granted) => r in s.open && (granted ==> s.open[r].fenced != {} && s.open[r].fenced <= s.open[r].acked)
    case SendStored(p) => Connected(s, p) && HasStored(c, s, p)
    case DeliverFence(p, g) => Connected(s, p) && FenceTo(s.pages[p].socket.value, g) in s.sent
    case DeliverPolicy(p, g) => Connected(s, p) && PolicyTo(s.pages[p].socket.value, g) in s.sent
  }

  function Acknowledge(open: map<nat, Transaction>, r: nat, socket: SocketId): map<nat, Transaction> {
    if r in open && socket in open[r].fenced
    then open[r := open[r].(acked := open[r].acked + {socket})]
    else open
  }

  /** The guarded stamp: only a newer revision replaces what is stored. */
  function StampStored(stored: map<PlaylistId, Grant>, g: Grant): map<PlaylistId, Grant> {
    map pl | pl in stored :: if g.revision > stored[pl].revision then g else stored[pl]
  }

  function CommittedGrant(s: State, r: nat, granted: bool): Grant
    requires r in s.open
  {
    Grant(r, if granted then s.open[r].owner else None)
  }

  function SetController(s: State, p: PageId, k: Controller): State
    requires p in s.pages
  {
    s.(pages := s.pages[p := s.pages[p].(controller := k)])
  }

  function Step(c: Session, s: State, e: Event): State
    requires Enabled(c, s, e)
  {
    match e
    case OpenPage(p, d) =>
      s.(pages := s.pages[p := Page(d, None, 0, COLD_START)])
    case ApplyCached(p, r) =>
      SetController(s, p, ReceivePolicy(s.pages[p].controller, Grant(r, s.committed[r])))
    case Connect(p) =>
      var page := s.pages[p];
      s.(pages := s.pages[p := Page(page.device, Some(s.nextSocket), s.stored[c.playlistOf[page.device]].revision, Block(page.controller))],
         nextSocket := s.nextSocket + 1)
    case Disconnect(p) =>
      s.(pages := s.pages[p := s.pages[p].(socket := None, controller := Block(s.pages[p].controller))])
    case BlockPage(p) =>
      SetController(s, p, Block(s.pages[p].controller))
    case Begin(r, owner) =>
      var fenced := ConnectedSockets(s);
      s.(lastRevision := r,
         open := s.open[r := Transaction(owner, fenced, {})],
         sent := s.sent + set k | k in fenced :: FenceTo(k, Grant(r, owner)))
    case Commit(r, granted) =>
      var g := CommittedGrant(s, r, granted);
      s.(open := s.open - {r}, stored := StampStored(s.stored, g), committed := s.committed[r := g.owner])
    case SendStored(p) =>
      s.(sent := s.sent + {PolicyTo(s.pages[p].socket.value, s.stored[c.playlistOf[s.pages[p].device]])})
    case DeliverFence(p, g) =>
      var page := s.pages[p];
      var s' := SetController(s, p, ReceiveFence(page.controller, g));
      if AcceptsFence(page.controller, g) then s'.(open := Acknowledge(s.open, g.revision, page.socket.value)) else s'
    case DeliverPolicy(p, g) =>
      SetController(s, p, ReceivePolicy(s.pages[p].controller, g))
  }

  // --- Safety ---

  predicate Audible(s: State, p: PageId) {
    Connected(s, p) && AudioAllowed(s.pages[p].controller, s.pages[p].device)
  }

  ghost predicate AtMostOneAudible(s: State) {
    forall p, q :: Audible(s, p) && Audible(s, q) ==> s.pages[p].device == s.pages[q].device
  }

  ghost predicate InitialGrant(s: State, g: Grant) {
    && g.revision <= s.lastRevision
    && s.committed == map[g.revision := g.owner]
    && forall pl :: pl in s.stored ==> s.stored[pl] == g
  }

  /** Before any page is open every playlist carries the session's first policy. */
  ghost predicate Initial(c: Session, s: State) {
    && s.pages == map[] && s.open == map[] && s.sent == {}
    && (forall d :: d in c.playlistOf ==> c.playlistOf[d] in s.stored)
    && exists g: Grant :: InitialGrant(s, g)
  }

  /** Revisions of open and committed transactions, and the store they lead to. */
  ghost predicate StoreInv(c: Session, s: State) {
    && (forall d :: d in c.playlistOf ==> c.playlistOf[d] in s.stored)
    && (forall r :: r in s.open ==> r <= s.lastRevision && r !in s.committed)
    && (forall r :: r in s.committed ==> r <= s.lastRevision)
    && (forall pl :: pl in s.stored ==> IsCommitted(s.committed, s.stored[pl]))
    && (forall r, pl :: r in s.committed && pl in s.stored ==> r <= s.stored[pl].revision)
  }

  ghost predicate IsCommitted(committed: map<nat, Option<Device>>, g: Grant) {
    g.revision in committed && committed[g.revision] == g.owner
  }

  /** Sockets are never shared or reused. */
  ghost predicate SocketInv(s: State) {
    && (forall p :: Connected(s, p) ==> s.pages[p].socket.value < s.nextSocket)
    && (forall p, q :: Connected(s, p) && Connected(s, q) && s.pages[p].socket == s.pages[q].socket ==> p == q)
    && (forall m :: m in s.sent ==> m.socket < s.nextSocket)
    && (forall r, k :: r in s.open && k in s.open[r].acked ==> k < s.nextSocket)
    && (forall r, k :: r in s.open && k in s.open[r].fenced ==> k < s.nextSocket)
  }

  /** What a page may believe, whatever messages reach it. */
  ghost predicate PageInv(committed: map<nat, Option<Device>>, page: Page) {
    var k := page.controller;
    && (k.current.Some? ==> IsCommitted(committed, k.current.value))
    && (!k.blocked ==> k.fence.None? && k.current.Some?)
    && (page.socket.Some? && !k.blocked ==> page.base <= k.current.value.revision)
  }

  ghost predicate PagesInv(c: Session, s: State) {
    forall p :: p in s.pages ==> s.pages[p].device in c.playlistOf && PageInv(s.committed, s.pages[p])
  }

  /** A page's playlist is never older than when its socket joined. */
  ghost predicate BaseInv(c: Session, s: State) {
    forall p :: Connected(s, p) && HasStored(c, s, p) ==>
      s.pages[p].base <= s.stored[c.playlistOf[s.pages[p].device]].revision
  }

  ghost predicate MailInv(s: State) {
    && (forall m :: m in s.sent && m.PolicyTo? ==> IsCommitted(s.committed, m.grant))
    && (forall m, p :: m in s.sent && m.PolicyTo? && Connected(s, p) && s.pages[p].socket.value == m.socket ==> s.pages[p].base <= m.grant.revision)
  }

  /** The page has left behind whatever precedes `r`. */
  ghost predicate Caught(page: Page, r: nat) {
    r <= Floor(page.controller) || r <= page.base
  }

  ghost predicate GrantInv(s: State) {
    forall r, p :: r in s.committed && s.committed[r].Some? && Connected(s, p) ==> Caught(s.pages[p], r)
  }

  ghost predicate AckInv(s: State) {
    forall r, p :: r in s.open && Connected(s, p) && s.pages[p].socket.value in s.open[r].acked ==> r <= Floor(s.pages[p].controller)
  }

  ghost predicate Inv(c: Session, s: State) {
    StoreInv(c, s) && SocketInv(s) && PagesInv(c, s) && BaseInv(c, s) && MailInv(s) && GrantInv(s) && AckInv(s)
  }

  /** The invariant excludes two audible devices: the newer owner's grant was fenced. */
  lemma InvIsSafe(c: Session, s: State)
    requires Inv(c, s)
    ensures AtMostOneAudible(s)
  {
    forall p, q | Audible(s, p) && Audible(s, q)
      ensures s.pages[p].device == s.pages[q].device
    {
      var rp, rq := s.pages[p].controller.current.value.revision, s.pages[q].controller.current.value.revision;
      assert Caught(s.pages[p], rq) && Caught(s.pages[q], rp);
    }
  }

  lemma ReceivingRaisesFloor(k: Controller, g: Grant)
    ensures Floor(ReceiveFence(k, g)) >= Floor(k) && Floor(ReceivePolicy(k, g)) >= Floor(k)
    ensures AcceptsFence(k, g) ==> Floor(ReceiveFence(k, g)) >= g.revision
  {
  }

  /** Which messages a page accepts: all that are newer than what it has seen, none that are
      older, and of the same revision only what it has already, or the outcome of its fence. */
  lemma AcceptedByRevision(k: Controller, g: Grant)
    ensures g.revision > Floor(k) ==> AcceptsFence(k, g) && AcceptsPolicy(k, g)
    ensures g.revision < Floor(k) ==> !AcceptsFence(k, g) && !AcceptsPolicy(k, g)
    ensures g.revision == Floor(k) ==>
      && (AcceptsFence(k, g) <==> (k.fence.Some? && k.fence.value.revision == g.revision ==> k.fence == Some(g)))
      && (AcceptsPolicy(k, g) <==>
            && (k.fence.Some? && k.fence.value.revision == g.revision ==> g.owner in {None, k.fence.value.owner})
            && (k.current.Some? && k.current.value.revision == g.revision ==> k.current == Some(g)))
  {
  }

  /** A fence and a rejected message silence the page and leave it the policy it had; an accepted
      policy is the one it goes by, however often either is delivered. */
  lemma ReceivingDecides(k: Controller, g: Grant, d: Device)
    ensures !AudioAllowed(ReceiveFence(k, g), d) && ReceiveFence(k, g).current == k.current
    ensures AcceptsFence(k, g) ==> ReceiveFence(k, g).fence == Some(g)
    ensures !AcceptsFence(k, g) ==> ReceiveFence(k, g).fence == k.fence
    ensures !AcceptsPolicy(k, g) ==> !AudioAllowed(ReceivePolicy(k, g), d) && ReceivePolicy(k, g) == k.(blocked := true)
    ensures AcceptsPolicy(k, g) ==>
      && ReceivePolicy(k, g).current == Some(g) && (AudioAllowed(ReceivePolicy(k, g), d) <==> g.owner == Some(d))
      && ReceivePolicy(ReceivePolicy(k, g), g) == ReceivePolicy(k, g)
    ensures AcceptsFence(k, g) ==> ReceiveFence(ReceiveFence(k, g), g) == ReceiveFence(k, g)
  {
  }

  /** No session that joined after the fence of `r` is still behind it. */
  ghost predicate NoLateSession(s: State, r: nat)
    requires r in s.open
  {
    forall p :: Connected(s, p) ==> s.pages[p].socket.value in s.open[r].fenced || r <= s.pages[p].base
  }

  /** The condition on a step: an owner is granted only when no session is late. */
  ghost predicate Timely(s: State, e: Event) {
    e.Commit? && e.granted && e.revision in s.open && s.open[e.revision].owner.Some? ==> NoLateSession(s, e.revision)
  }

  /** One step seen from one page: it forgets no revision, and its socket only changes
      by joining or leaving. */
  ghost predicate PageFrame(before: Page, after: Page, joins: bool) {
    && after.device == before.device
    && Floor(after.controller) >= Floor(before.controller)
    && (!joins ==> after.base == before.base && after.socket in {None, before.socket})
  }

  lemma StepFramesPage(c: Session, s: State, e: Event, q: PageId)
    requires Enabled(c, s, e) && q in s.pages
    ensures q in Step(c, s, e).pages
    ensures PageFrame(s.pages[q], Step(c, s, e).pages[q], e == Connect(q))
  {
    match e
    case ApplyCached(p, r) => ReceivingRaisesFloor(s.pages[p].controller, Grant(r, s.committed[r]));
    case DeliverFence(p, g) => ReceivingRaisesFloor(s.pages[p].controller, g);
    case DeliverPolicy(p, g) => ReceivingRaisesFloor(s.pages[p].controller, g);
    case _ =>
  }

  /** What one step leaves alone on the server. */
  lemma StepFramesServer(c: Session, s: State, e: Event)
    requires Enabled(c, s, e)
    ensures var s' := Step(c, s, e);
      && (!e.Commit? ==> s'.stored == s.stored && s'.committed == s.committed)
      && (!e.Begin? ==> s'.lastRevision == s.lastRevision)
      && (!e.Begin? && !e.Commit? ==> s'.open.Keys == s.open.Keys)
      && (!e.Begin? && !e.SendStored? ==> s'.sent == s.sent)
      && s.nextSocket <= s'.nextSocket
  {
  }

  lemma StepKeepsStore(c: Session, s: State, e: Event)
    requires StoreInv(c, s) && Enabled(c, s, e)
    ensures StoreInv(c, Step(c, s, e))
  {
    StepFramesServer(c, s, e);
    if e.Commit? {
      CommitKeepsStore(c, s, e.revision, e.granted);
    }
  }

  lemma CommitKeepsStore(c: Session, s: State, r: nat, granted: bool)
    requires StoreInv(c, s) && r in s.open
    ensures var g := CommittedGrant(s, r, granted);
      StoreInv(c, s.(open := s.open - {r}, stored := StampStored(s.stored, g), committed := s.committed[r := g.owner]))
  {
  }

  /** A socket after a step was there before, or has just joined with the next number. */
  lemma SocketOrigin(c: Session, s: State, e: Event, p: PageId)
    requires Enabled(c, s, e) && Connected(Step(c, s, e), p)
    ensures var s' := Step(c, s, e);
      && p in s.pages
      && if e == Connect(p) then s'.pages[p].socket.value == s.nextSocket && s'.nextSocket == s.nextSocket + 1
         else Connected(s, p) && s'.pages[p].socket == s.pages[p].socket
  {
    assert p in s.pages;
    StepFramesPage(c, s, e, p);
  }

  lemma SocketsStayApart(c: Session, s: State, e: Event, p: PageId, q: PageId)
    requires SocketInv(s) && Enabled(c, s, e) && Connected(Step(c, s, e), p) && Connected(Step(c, s, e), q)
    ensures Step(c, s, e).pages[p].socket.value < Step(c, s, e).nextSocket
    ensures Step(c, s, e).pages[p].socket == Step(c, s, e).pages[q].socket ==> p == q
  {
    StepFramesServer(c, s, e);
    hide Enabled, Step;
    SocketOrigin(c, s, e, p);
    SocketOrigin(c, s, e, q);
  }

  lemma TransactionSockets(c: Session, s: State, e: Event, r: nat)
    requires SocketInv(s) && Enabled(c, s, e) && r in Step(c, s, e).open
    ensures forall k :: k in Step(c, s, e).open[r].acked + Step(c, s, e).open[r].fenced ==> k < s.nextSocket
  {
    hide Step;
    TransactionOrigin(c, s, e, r);
  }

  lemma MessageSocket(c: Session, s: State, e: Event, m: Message)
    requires SocketInv(s) && Enabled(c, s, e) && m in Step(c, s, e).sent
    ensures m.socket < s.nextSocket
  {
    hide Step, Enabled;
    MessageOrigin(c, s, e, m);
  }

  lemma StepKeepsSockets(c: Session, s: State, e: Event)
    requires SocketInv(s) && Enabled(c, s, e)
    ensures SocketInv(Step(c, s, e))
  {
    var s' := Step(c, s, e);
    StepFramesServer(c, s, e);
    hide Enabled, Step;
    forall p, q | Connected(s', p) && Connected(s', q)
      ensures s'.pages[p].socket.value < s'.nextSocket
      ensures s'.pages[p].socket == s'.pages[q].socket ==> p == q
    {
      SocketsStayApart(c, s, e, p, q);
    }
    forall m | m in s'.sent ensures m.socket < s'.nextSocket {
      MessageSocket(c, s, e, m);
    }
    forall r, k | r in s'.open && (k in s'.open[r].acked || k in s'.open[r].fenced) ensures k < s'.nextSocket {
      TransactionSockets(c, s, e, r);
    }
  }

  /** A message was sent before, or belongs to the page or the transaction of this step. */
  lemma MessageOrigin(c: Session, s: State, e: Event, m: Message)
    requires Enabled(c, s, e) && m in Step(c, s, e).sent
    ensures
      || m in s.sent
      || (e.Begin? && m.FenceTo? && m.socket in ConnectedSockets(s))
      || (e.SendStored? && Connected(s, e.page) && HasStored(c, s, e.page)
          && m == PolicyTo(s.pages[e.page].socket.value, s.stored[c.playlistOf[s.pages[e.page].device]]))
  {
  }

  /** A transaction was open before or has just begun; it only gains acknowledgements
      of the page a fence is delivered to. */
  lemma TransactionOrigin(c: Session, s: State, e: Event, r: nat)
    requires Enabled(c, s, e) && r in Step(c, s, e).open
    ensures var t := Step(c, s, e).open[r];
      if e.Begin? && e.revision == r then t == Transaction(e.owner, ConnectedSockets(s), {})
      else
        && r in s.open && t.fenced == s.open[r].fenced && t.owner == s.open[r].owner
        && (t.acked == s.open[r].acked
            || (e.DeliverFence? && e.grant.revision == r && AcceptsFence(s.pages[e.page].controller, e.grant)
                && s.pages[e.page].socket.value in t.fenced && t.acked == s.open[r].acked + {s.pages[e.page].socket.value}))
  {
  }

  lemma StepKeepsPages(c: Session, s: State, e: Event)
    requires StoreInv(c, s) && PagesInv(c, s) && MailInv(s) && Enabled(c, s, e)
    ensures PagesInv(c, Step(c, s, e))
  {
    var s' := Step(c, s, e);
    forall p | p in s'.pages
      ensures s'.pages[p].device in c.playlistOf && PageInv(s'.committed, s'.pages[p])
    {
      if p in s.pages {
        StepKeepsPage(c, s, e, p);
      }
    }
  }

  /** A committed policy received by a page, from the server or from its own cache,
      leaves it believing only committed policies. */
  lemma ReceivingKeepsPageInv(committed: map<nat, Option<Device>>, page: Page, g: Grant)
    requires PageInv(committed, page)
    ensures PageInv(committed, page.(controller := ReceiveFence(page.controller, g)))
    ensures PageInv(committed, page.(controller := Block(page.controller)))
    ensures IsCommitted(committed, g) && (page.socket.Some? ==> page.base <= g.revision) ==>
      PageInv(committed, page.(controller := ReceivePolicy(page.controller, g)))
  {
  }

  /** The page whose own event this is. */
  function PageAfter(c: Session, s: State, e: Event, page: Page): Page
    requires Enabled(c, s, e)
  {
    match e
    case ApplyCached(_, r) => page.(controller := ReceivePolicy(page.controller, Grant(r, s.committed[r])))
    case Connect(p) => Page(page.device, Some(s.nextSocket), s.stored[c.playlistOf[s.pages[p].device]].revision, Block(page.controller))
    case Disconnect(_) => page.(socket := None, controller := Block(page.controller))
    case BlockPage(_) => page.(controller := Block(page.controller))
    case DeliverFence(_, g) => page.(controller := ReceiveFence(page.controller, g))
    case DeliverPolicy(_, g) => page.(controller := ReceivePolicy(page.controller, g))
    case _ => page
  }

  predicate OwnEvent(e: Event, p: PageId) {
    !e.Begin? && !e.Commit? && !e.SendStored? && e.page == p
  }

  lemma StepChangesOnePage(c: Session, s: State, e: Event, p: PageId)
    requires Enabled(c, s, e) && p in s.pages
    ensures p in Step(c, s, e).pages
    ensures Step(c, s, e).pages[p] == if OwnEvent(e, p) then PageAfter(c, s, e, s.pages[p]) else s.pages[p]
  {
  }

  lemma OwnEventKeepsPageInv(c: Session, s: State, e: Event, p: PageId)
    requires MailInv(s) && Enabled(c, s, e) && p in s.pages && OwnEvent(e, p) && PageInv(s.committed, s.pages[p])
    ensures PageInv(s.committed, PageAfter(c, s, e, s.pages[p]))
  {
    var page := s.pages[p];
    match e
    case ApplyCached(_, r) => ReceivingKeepsPageInv(s.committed, page, Grant(r, s.committed[r]));
    case DeliverFence(_, g) => ReceivingKeepsPageInv(s.committed, page, g);
    case DeliverPolicy(_, g) => ReceivingKeepsPageInv(s.committed, page, g);
    case _ =>
  }

  lemma StepKeepsPage(c: Session, s: State, e: Event, p: PageId)
    requires StoreInv(c, s) && PagesInv(c, s) && MailInv(s) && Enabled(c, s, e) && p in s.pages
    ensures p in Step(c, s, e).pages && Step(c, s, e).pages[p].device in c.playlistOf
    ensures PageInv(Step(c, s, e).committed, Step(c, s, e).pages[p])
  {
    var page := s.pages[p];
    assert PageInv(s.committed, page);
    StepFramesServer(c, s, e);
    StepChangesOnePage(c, s, e, p);
    if OwnEvent(e, p) {
      OwnEventKeepsPageInv(c, s, e, p);
    } else if e.Commit? {
      assert page.controller.current.Some? ==> page.controller.current.value.revision != e.revision;
    }
  }

  /** What is stored is only replaced by what is newer. */
  lemma StoredNeverFalls(c: Session, s: State, e: Event, pl: PlaylistId)
    requires Enabled(c, s, e)
    ensures var s' := Step(c, s, e);
      && (pl in s.stored <==> pl in s'.stored)
      && (pl in s.stored ==> s.stored[pl].revision <= s'.stored[pl].revision)
  {
    StepFramesServer(c, s, e);
  }

  /** A page that has just joined starts at what is stored for it. */
  lemma JoinsAtStored(c: Session, s: State, p: PageId)
    requires Enabled(c, s, Connect(p))
    ensures var s' := Step(c, s, Connect(p));
      p in s'.pages && HasStored(c, s, p) && s'.stored == s.stored && s'.committed == s.committed && s'.sent == s.sent
      && s'.open == s.open && s'.pages[p].base == s.stored[c.playlistOf[s.pages[p].device]].revision
  {
  }

  lemma StepKeepsBase(c: Session, s: State, e: Event)
    requires BaseInv(c, s) && Enabled(c, s, e)
    ensures BaseInv(c, Step(c, s, e))
  {
    var s' := Step(c, s, e);
    hide Enabled, Step;
    forall p | Connected(s', p) && HasStored(c, s', p)
      ensures s'.pages[p].base <= s'.stored[c.playlistOf[s'.pages[p].device]].revision
    {
      SocketOrigin(c, s, e, p);
      StepFramesPage(c, s, e, p);
      StoredNeverFalls(c, s, e, c.playlistOf[s.pages[p].device]);
      if e == Connect(p) {
        JoinsAtStored(c, s, p);
      } else {
        assert HasStored(c, s, p);
      }
    }
  }

  lemma CommittedStays(c: Session, s: State, e: Event, g: Grant)
    requires StoreInv(c, s) && Enabled(c, s, e) && IsCommitted(s.committed, g)
    ensures IsCommitted(Step(c, s, e).committed, g)
  {
    StepFramesServer(c, s, e);
  }

  lemma SentStays(c: Session, s: State, e: Event, m: Message, p: PageId)
    requires SocketInv(s) && MailInv(s) && Enabled(c, s, e)
    requires m in s.sent && m.PolicyTo? && Connected(Step(c, s, e), p) && Step(c, s, e).pages[p].socket.value == m.socket
    ensures Step(c, s, e).pages[p].base <= m.grant.revision
  {
    hide Enabled, Step;
    SocketOrigin(c, s, e, p);
    StepFramesPage(c, s, e, p);
  }

  lemma SentNow(c: Session, s: State, e: Event, m: Message, p: PageId)
    requires SocketInv(s) && BaseInv(c, s) && Enabled(c, s, e) && e.SendStored?
    requires m == PolicyTo(s.pages[e.page].socket.value, s.stored[c.playlistOf[s.pages[e.page].device]])
    requires Connected(Step(c, s, e), p) && Step(c, s, e).pages[p].socket.value == m.socket
    ensures Step(c, s, e).pages[p].base <= m.grant.revision
  {
    assert p == e.page;
  }

  lemma StepKeepsMail(c: Session, s: State, e: Event)
    requires StoreInv(c, s) && SocketInv(s) && BaseInv(c, s) && MailInv(s) && Enabled(c, s, e)
    ensures MailInv(Step(c, s, e))
  {
    var s' := Step(c, s, e);
    hide Enabled, Step, SocketInv, BaseInv;
    forall m | m in s'.sent && m.PolicyTo?
      ensures IsCommitted(s'.committed, m.grant)
      ensures forall p :: Connected(s', p) && s'.pages[p].socket.value == m.socket ==> s'.pages[p].base <= m.grant.revision
    {
      MessageOrigin(c, s, e, m);
      CommittedStays(c, s, e, m.grant);
      forall p | Connected(s', p) && s'.pages[p].socket.value == m.socket
        ensures s'.pages[p].base <= m.grant.revision
      {
        if m in s.sent {
          SentStays(c, s, e, m, p);
        } else {
          SentNow(c, s, e, m, p);
        }
      }
    }
  }

  /** A revision was committed before, or is the one this step commits. */
  lemma CommittedOrigin(c: Session, s: State, e: Event, r: nat)
    requires Enabled(c, s, e) && r in Step(c, s, e).committed && Step(c, s, e).committed[r].Some?
    ensures
      || (r in s.committed && s.committed[r].Some?)
      || (e.Commit? && e.granted && e.revision == r && s.open[r].owner.Some? && s.open[r].fenced <= s.open[r].acked
          && Step(c, s, e).pages == s.pages)
  {
    StepFramesServer(c, s, e);
  }

  /** The step the handshake is for: a granted owner meets only pages that left every
      older revision behind. */
  lemma StepKeepsGrants(c: Session, s: State, e: Event)
    requires StoreInv(c, s) && PagesInv(c, s) && GrantInv(s) && AckInv(s) && Enabled(c, s, e) && Timely(s, e)
    ensures GrantInv(Step(c, s, e))
  {
    var s' := Step(c, s, e);
    forall r, p | r in s'.committed && s'.committed[r].Some? && Connected(s', p)
      ensures Caught(s'.pages[p], r)
    {
      hide PagesInv, Step, Enabled;
      SocketOrigin(c, s, e, p);
      StepFramesPage(c, s, e, p);
      CommittedOrigin(c, s, e, r);
      if e == Connect(p) {
        JoinsAtStored(c, s, p);
      } else if r in s.committed && s.committed[r].Some? {
        assert Caught(s.pages[p], r);
      } else {
        assert e.Commit? && e.revision == r && e.granted;
        assert s'.pages[p] == s.pages[p];
      }
    }
  }

  lemma StepKeepsAcks(c: Session, s: State, e: Event)
    requires SocketInv(s) && AckInv(s) && Enabled(c, s, e)
    ensures AckInv(Step(c, s, e))
  {
    var s' := Step(c, s, e);
    hide Step, Enabled, Floor, AcceptsFence;
    forall r, p | r in s'.open && Connected(s', p) && s'.pages[p].socket.value in s'.open[r].acked
      ensures r <= Floor(s'.pages[p].controller)
    {
      SocketOrigin(c, s, e, p);
      StepFramesPage(c, s, e, p);
      TransactionOrigin(c, s, e, r);
      if e != Connect(p) && r in s.open && s.pages[p].socket.value in s.open[r].acked {
        assert r <= Floor(s.pages[p].controller);
      } else if e != Connect(p) {
        AcknowledgedNow(c, s, e, p);
      }
    }
  }

  /** The page that a fence has just been delivered to and that accepted it. */
  lemma AcknowledgedNow(c: Session, s: State, e: Event, p: PageId)
    requires SocketInv(s) && Enabled(c, s, e) && e.DeliverFence? && AcceptsFence(s.pages[e.page].controller, e.grant)
    requires Connected(s, p) && s.pages[p].socket == s.pages[e.page].socket
    ensures p in Step(c, s, e).pages && e.grant.revision <= Floor(Step(c, s, e).pages[p].controller)
  {
    assert p == e.page;
    ReceivingRaisesFloor(s.pages[p].controller, e.grant);
  }

  lemma StepKeepsInv(c: Session, s: State, e: Event)
    requires Inv(c, s) && Enabled(c, s, e) && Timely(s, e)
    ensures Inv(c, Step(c, s, e))
  {
    StepKeepsStore(c, s, e);
    StepKeepsSockets(c, s, e);
    StepKeepsPages(c, s, e);
    StepKeepsBase(c, s, e);
    StepKeepsMail(c, s, e);
    StepKeepsGrants(c, s, e);
    StepKeepsAcks(c, s, e);
  }

  lemma InitialInv(c: Session, s: State)
    requires Initial(c, s)
    ensures Inv(c, s)
  {
    var g: Grant :| InitialGrant(s, g);
  }

  // --- Runs ---

  /** What a run may do: anything; grant an owner only when no session is late; or let
      no session join while a transaction is open. */
  datatype Discipline = Unrestricted | TimelyGrants | NoJoinWhileOpen

  ghost predicate Allowed(discipline: Discipline, s: State, e: Event) {
    match discipline
    case Unrestricted => true
    case TimelyGrants => Timely(s, e)
    case NoJoinWhileOpen => e.Connect? ==> s.open == map[]
  }

  /** The state after the events, or None when one of them could not happen. */
  ghost function Exec(c: Session, s: State, events: seq<Event>, discipline: Discipline): Option<State> {
    if events == [] then Some(s)
    else
      var n := |events| - 1;
      var before := Exec(c, s, events[..n], discipline);
      if before.Some? && Enabled(c, before.value, events[n]) && Allowed(discipline, before.value, events[n])
      then Some(Step(c, before.value, events[n]))
      else None
  }

  lemma {:induction false} RunKeepsInv(c: Session, s: State, events: seq<Event>)
    requires Initial(c, s) && Exec(c, s, events, TimelyGrants).Some?
    ensures Inv(c, Exec(c, s, events, TimelyGrants).value)
  {
    if events == [] {
      InitialInv(c, s);
    } else {
      var n := |events| - 1;
      RunKeepsInv(c, s, events[..n]);
      StepKeepsInv(c, Exec(c, s, events[..n], TimelyGrants).value, events[n]);
    }
  }

  /** In every run that grants no owner over a late session, under any interleaving of
      concurrent recoveries and any network, at most one device is audible. */
  lemma AtMostOneAudibleAlways(c: Session, s: State, events: seq<Event>)
    requires Initial(c, s) && Exec(c, s, events, TimelyGrants).Some?
    ensures AtMostOneAudible(Exec(c, s, events, TimelyGrants).value)
  {
    RunKeepsInv(c, s, events);
    InvIsSafe(c, Exec(c, s, events, TimelyGrants).value);
  }

  /** Every open transaction fenced every session there is. */
  ghost predicate AllFenced(s: State) {
    forall r, p :: r in s.open && Connected(s, p) ==> s.pages[p].socket.value in s.open[r].fenced
  }

  lemma StepKeepsAllFenced(c: Session, s: State, e: Event)
    requires AllFenced(s) && Enabled(c, s, e) && Allowed(NoJoinWhileOpen, s, e)
    ensures AllFenced(Step(c, s, e))
  {
    var s' := Step(c, s, e);
    forall r, p | r in s'.open && Connected(s', p)
      ensures s'.pages[p].socket.value in s'.open[r].fenced
    {
      assert p in s.pages;
      StepFramesPage(c, s, e, p);
    }
  }

  /** Keeping sessions from joining between a fence and its commit is enough. */
  lemma {:induction false} NoJoinIsTimely(c: Session, s: State, events: seq<Event>)
    requires Initial(c, s) && Exec(c, s, events, NoJoinWhileOpen).Some?
    ensures Exec(c, s, events, TimelyGrants) == Exec(c, s, events, NoJoinWhileOpen)
    ensures AllFenced(Exec(c, s, events, NoJoinWhileOpen).value)
  {
    if events != [] {
      var n := |events| - 1;
      NoJoinIsTimely(c, s, events[..n]);
      StepKeepsAllFenced(c, Exec(c, s, events[..n], NoJoinWhileOpen).value, events[n]);
    }
  }

  lemma NoJoinIsSafe(c: Session, s: State, events: seq<Event>)
    requires Initial(c, s) && Exec(c, s, events, NoJoinWhileOpen).Some?
    ensures AtMostOneAudible(Exec(c, s, events, NoJoinWhileOpen).value)
  {
    NoJoinIsTimely(c, s, events);
    AtMostOneAudibleAlways(c, s, events);
  }
}
