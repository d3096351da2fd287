/**
 Resolving typed broadcast targets (server/lib/broadcast-targets.js): displays, device
 groups, walls, and the groups, members and regions of a wall.
 */
module BroadcastTargets {
  import opened Text
  import opened Wrappers
  import Sorting

  type Id = string

  // --- The database ---

  datatype Device = Device(workspace: string)

  /** A membership row; the workspace is None when the device row is missing. */
  datatype Member = Member(device: Id, workspace: Option<string>)

  datatype DeviceGroup = DeviceGroup(workspace: string, members: seq<Member>)

  /** `members` is None when `member_ids` is no array. */
  datatype LayoutGroup = LayoutGroup(id: Id, members: Option<seq<Id>>)

  datatype Region = Region(id: Id, enabled: bool, player: Id, zone: Id, revision: int)

  datatype Layout = Layout(groups: seq<LayoutGroup>, regions: seq<Region>)

  /** `revision` is None when it is not explicit, `layout` when the stored one is invalid. */
  datatype Wall = Wall(workspace: string, split: bool, revision: Option<nat>, members: seq<Member>, layout: Option<Layout>)

  /** `zones` are the layout zones bound to the current layout of a device. */
  datatype Database = Database(
    devices: map<Id, Device>, groups: map<Id, DeviceGroup>, walls: map<Id, Wall>, zones: set<(Id, Id)>)

  // --- Requests and answers ---

  /** A missing field is the empty string, a missing or non-explicit revision None. */
  datatype Ref =
    | NotAnObject
    | Typed(type_: string, id: Id, groupId: Id, wallId: Id, deviceId: Id, regionId: Id, revision: Option<nat>)

  datatype TargetError = BadRequest | NotFound | Forbidden | LayoutConflict | InvalidLayout | TopologyConflict

  datatype RouteKind = ToDisplay | ToDeviceGroup | ToWall | ToWallMember | ToWallRegion | ToWallGroup

  datatype Route = Route(kind: RouteKind, device: Id, wall: Id, group: Id, region: Id, zone: Id, revision: Option<nat>)

  type Routes = Result<seq<Route>, TargetError>

  datatype Resolution = Resolution(targets: seq<Id>, routes: seq<Route>)

  function Or(a: string, b: string): string {
    if a != "" then a else b
  }

  function Dashes(s: string): string {
    seq(|s|, i requires 0 <= i < |s| => if s[i] == '_' then '-' else s[i])
  }

  // --- The routes one reference asks for ---

  function DisplayRoutes(db: Database, ws: string, id: Id): Routes {
    if id == "" then Err(BadRequest)
    else if id !in db.devices then Err(NotFound)
    else if db.devices[id].workspace != ws then Err(Forbidden)
    else Ok([Route(ToDisplay, id, "", "", "", "", None)])
  }

  predicate Foreign(members: seq<Member>, ws: string) {
    exists m :: m in members && m.workspace != Some(ws)
  }

  function MemberIds(members: seq<Member>): (r: seq<Id>)
    ensures |r| == |members| && forall i :: 0 <= i < |r| ==> r[i] == members[i].device
  {
    seq(|members|, i requires 0 <= i < |members| => members[i].device)
  }

  /** `map`: one route to each device. */
  function RouteEach(devices: seq<Id>, like: Route): (r: seq<Route>)
    ensures |r| == |devices| && forall i :: 0 <= i < |r| ==> r[i] == like.(device := devices[i])
  {
    seq(|devices|, i requires 0 <= i < |devices| => like.(device := devices[i]))
  }

  function DeviceGroupRoutes(db: Database, ws: string, id: Id): Routes {
    if id == "" then Err(BadRequest)
    else if id !in db.groups then Err(NotFound)
    else
      var group := db.groups[id];
      if group.workspace != ws then Err(Forbidden)
      else if group.members == [] || Foreign(group.members, ws) then Err(TopologyConflict)
      else Ok(RouteEach(MemberIds(group.members), Route(ToDeviceGroup, "", "", id, "", "", None)))
  }

  function LoadWall(db: Database, ws: string, id: Id, expected: Option<nat>): (r: Result<Wall, TargetError>)
    ensures r.Ok? ==> r.value.members != []
  {
    if id !in db.walls then Err(LayoutConflict)
    else
      var wall := db.walls[id];
      if wall.workspace != ws then Err(Forbidden)
      else if wall.revision.None? || expected != wall.revision then Err(LayoutConflict)
      else if wall.members == [] || Foreign(wall.members, ws) then Err(LayoutConflict)
      else Ok(wall)
  }

  function Enabled(regions: seq<Region>): (r: seq<Region>)
    ensures forall x :: x in r <==> x in regions && x.enabled
  {
    if regions == [] then []
    else (if regions[0].enabled then [regions[0]] else []) + Enabled(regions[1..])
  }

  /** Some region is not bound to the player's current layout. */
  predicate Unbound(db: Database, regions: seq<Region>, player: Id) {
    exists r :: r in regions && (r.zone, player) !in db.zones
  }

  function RegionRoutes(regions: seq<Region>, player: Id, wallId: Id, revision: Option<nat>): (r: seq<Route>)
    ensures |r| == |regions| && forall i :: 0 <= i < |r| ==> r[i].device == player
  {
    seq(|regions|, i requires 0 <= i < |regions| =>
      Route(ToWallRegion, player, wallId, "", regions[i].id, regions[i].zone, revision))
  }

  function WallRoutes(db: Database, wallId: Id, wall: Wall): Routes
    requires wall.members != []
  {
    if wall.layout.None? then Err(InvalidLayout)
    else
      var mosaic := if wall.split && |wall.members| == 1 then Enabled(wall.layout.value.regions) else [];
      if mosaic == [] then Ok(RouteEach(MemberIds(wall.members), Route(ToWall, "", wallId, "", "", "", wall.revision)))
      else
        var player := wall.members[0].device;
        if Unbound(db, mosaic, player) then Err(LayoutConflict)
        else Ok(RegionRoutes(mosaic, player, wallId, wall.revision))
  }

  function WallMemberRoutes(wallId: Id, wall: Wall, device: Id): Routes {
    if device == "" then Err(BadRequest)
    else if device !in MemberIds(wall.members) then Err(NotFound)
    else if !wall.split || |wall.members| <= 1 then Err(TopologyConflict)
    else Ok([Route(ToWallMember, device, wallId, "", "", "", wall.revision)])
  }

  function FindRegion(regions: seq<Region>, id: Id): Option<Region> {
    if regions == [] then None
    else if regions[0].id == id then Some(regions[0])
    else FindRegion(regions[1..], id)
  }

  function WallRegionRoutes(db: Database, wallId: Id, wall: Wall, id: Id): Routes {
    if id == "" then Err(BadRequest)
    else if !wall.split || |wall.members| != 1 then Err(TopologyConflict)
    else if wall.layout.None? then Err(InvalidLayout)
    else
      var found := FindRegion(wall.layout.value.regions, id);
      if found.None? || !found.value.enabled then Err(NotFound)
      else
        var region := found.value;
        var zone := Or(region.zone, region.id);
        if wall.revision.None? || region.revision != wall.revision.value || region.player == ""
           || wall.members[0].device != region.player || zone == "" then Err(LayoutConflict)
        else if (zone, region.player) !in db.zones then Err(LayoutConflict)
        else Ok([Route(ToWallRegion, region.player, wallId, "", id, zone, wall.revision)])
  }

  function ToSet(ids: seq<Id>): set<Id> {
    set x | x in ids
  }

  /** `flatMap` over the member lists. */
  function LayoutMembers(groups: seq<LayoutGroup>): seq<Id> {
    if groups == [] then []
    else (if groups[0].members.Some? then groups[0].members.value else []) + LayoutMembers(groups[1..])
  }

  /** completeCurrentLayout: compared by sizes and membership, as the code does. */
  predicate CompleteLayout(groups: seq<LayoutGroup>, members: seq<Id>) {
    && groups != []
    && (forall g :: g in groups ==> g.members.Some? && g.members.value != [])
    && |ToSet(LayoutMembers(groups))| == |LayoutMembers(groups)|
    && |ToSet(LayoutMembers(groups))| == |ToSet(members)|
    && (forall m :: m in members ==> m in LayoutMembers(groups))
  }

  function FindGroup(groups: seq<LayoutGroup>, id: Id): Option<LayoutGroup> {
    if groups == [] then None
    else if groups[0].id == id then Some(groups[0])
    else FindGroup(groups[1..], id)
  }

  function WallGroupRoutes(wallId: Id, wall: Wall, id: Id): Routes {
    if id == "" then Err(BadRequest)
    else if wall.layout.None? then Err(InvalidLayout)
    else
      var groups, members := wall.layout.value.groups, MemberIds(wall.members);
      if !CompleteLayout(groups, members) then Err(LayoutConflict)
      else
        var group := FindGroup(groups, id);
        if group.None? || group.value.members.None? || group.value.members.value == []
           || exists d :: d in group.value.members.value && d !in members then Err(LayoutConflict)
        else Ok(RouteEach(group.value.members.value, Route(ToWallGroup, "", wallId, id, "", "", wall.revision)))
  }

  function InWallRoutes(db: Database, ws: string, kind: string, ref: Ref): Routes
    requires ref.Typed?
  {
    var wallId := if kind == "wall" then ref.id else ref.wallId;
    if wallId == "" then Err(BadRequest)
    else
      var loaded := LoadWall(db, ws, wallId, ref.revision);
      if loaded.Err? then Err(loaded.error)
      else if kind == "wall" then WallRoutes(db, wallId, loaded.value)
      else if kind == "wall-member" then WallMemberRoutes(wallId, loaded.value, Or(ref.deviceId, ref.id))
      else if kind == "wall-region" then WallRegionRoutes(db, wallId, loaded.value, Or(ref.regionId, ref.id))
      else WallGroupRoutes(wallId, loaded.value, Or(ref.groupId, ref.id))
  }

  function RoutesOf(db: Database, ws: string, ref: Ref): Routes {
    if ref.NotAnObject? then Err(BadRequest)
    else
      var kind := Dashes(ToLower(Trim(ref.type_)));
      if kind == "display" then DisplayRoutes(db, ws, ref.id)
      else if kind == "group" || kind == "device-group" then DeviceGroupRoutes(db, ws, Or(ref.id, ref.groupId))
      else if WallKind(kind) then InWallRoutes(db, ws, kind, ref)
      else Err(BadRequest)
  }

  // --- All references: the specification of the loop ---

  /** The routes of all references in order, or the first error. */
  function AllRoutes(db: Database, ws: string, refs: seq<Ref>): Routes {
    if refs == [] then Ok([])
    else
      var n := |refs| - 1;
      var init := AllRoutes(db, ws, refs[..n]);
      if init.Err? then init
      else
        var last := RoutesOf(db, ws, refs[n]);
        if last.Err? then last else Ok(init.value + last.value)
  }

  function Key(route: Route): string {
    if route.kind.ToWallRegion? then route.device + ":region:" + route.region else route.device
  }

  function Keys(routes: seq<Route>): set<string> {
    set r | r in routes :: Key(r)
  }

  /** The devices, first occurrence kept; a route without a device is dropped. */
  function Targets(routes: seq<Route>): (r: seq<Id>)
    ensures forall i, j :: 0 <= i < j < |r| ==> r[i] != r[j]
    ensures forall d :: d in r <==> d in Devices(routes)
  {
    if routes == [] then []
    else
      var n := |routes| - 1;
      var init := Targets(routes[..n]);
      assert routes == routes[..n] + [routes[n]];
      if routes[n].device == "" || routes[n].device in init then init else init + [routes[n].device]
  }

  function Devices(routes: seq<Route>): set<Id> {
    set r | r in routes && r.device != "" :: r.device
  }

  /** The routes, first occurrence of each key kept. */
  function Kept(routes: seq<Route>): seq<Route> {
    if routes == [] then []
    else
      var n := |routes| - 1;
      var init := Kept(routes[..n]);
      if routes[n].device == "" || Key(routes[n]) in Keys(init) then init else init + [routes[n]]
  }

  /** One more route asked for. */
  lemma AskOne(asked: seq<Route>, route: Route)
    ensures Targets(asked + [route]) ==
      if route.device == "" || route.device in Targets(asked) then Targets(asked) else Targets(asked) + [route.device]
    ensures Kept(asked + [route]) ==
      if route.device == "" || Key(route) in Keys(Kept(asked)) then Kept(asked) else Kept(asked) + [route]
    ensures Keys(Kept(asked) + [route]) == Keys(Kept(asked)) + {Key(route)}
  {
    hide Key, Devices;
    assert (asked + [route])[..|asked|] == asked;
    KeysAppend(Kept(asked), route);
  }

  /** What the resolver accumulates while it reads the references. */
  class Accumulator {
    var resolved: seq<Id>
    var seen: set<Id>
    var routes: seq<Route>
    var seenRoutes: set<string>
    ghost var asked: seq<Route>

    ghost predicate Valid()
      reads this
    {
      && resolved == Targets(asked) && seen == ToSet(resolved)
      && routes == Kept(asked) && seenRoutes == Keys(routes)
    }

    constructor ()
      ensures Valid() && asked == []
    {
      resolved, seen, routes, seenRoutes, asked := [], {}, [], {}, [];
    }

    method Add(id: Id)
      modifies this`resolved, this`seen
      requires seen == ToSet(resolved)
      ensures resolved == if id == "" || id in old(resolved) then old(resolved) else old(resolved) + [id]
      ensures seen == ToSet(resolved)
    {
      if id != "" && id !in seen {
        seen := seen + {id};
        resolved := resolved + [id];
      }
    }

    method AddRoute(route: Route)
      requires Valid()
      modifies this
      ensures Valid() && asked == old(asked) + [route]
    {
      AskOne(asked, route);
      hide Targets, Kept, Keys;
      asked := asked + [route];
      if route.device == "" {
        return;
      }
      var key := Key(route);
      if key !in seenRoutes {
        seenRoutes := seenRoutes + {key};
        routes := routes + [route];
      }
      Add(route.device);
    }

    method AddRoutes(more: seq<Route>)
      requires Valid()
      modifies this
      ensures Valid() && asked == old(asked) + more
    {
      var i := 0;
      while i < |more|
        invariant 0 <= i <= |more| && Valid() && asked == old(asked) + more[..i]
      {
        AddRoute(more[i]);
        i := i + 1;
      }
    }
  }

  /** resolveTypedBroadcastTargets. */
  method Resolve(db: Database, ws: string, refs: seq<Ref>) returns (r: Result<Resolution, TargetError>)
    ensures var all := AllRoutes(db, ws, refs);
      r == if all.Err? then Err(all.error) else Ok(Resolution(Targets(all.value), Kept(all.value)))
  {
    var acc := new Accumulator();
    var i := 0;
    while i < |refs|
      invariant 0 <= i <= |refs| && fresh(acc) && acc.Valid()
      invariant AllRoutes(db, ws, refs[..i]) == Ok(acc.asked)
    {
      assert refs[..i + 1][..i] == refs[..i] && refs[..i + 1][i] == refs[i];
      var routes := RoutesOf(db, ws, refs[i]);
      if routes.Err? {
        ErrorStands(db, ws, refs, i + 1);
        return Err(routes.error);
      }
      acc.AddRoutes(routes.value);
      i := i + 1;
    }
    assert refs[..i] == refs;
    return Ok(Resolution(acc.resolved, acc.routes));
  }

  lemma {:induction false} ErrorStands(db: Database, ws: string, refs: seq<Ref>, k: nat)
    requires k <= |refs| && AllRoutes(db, ws, refs[..k]).Err?
    ensures AllRoutes(db, ws, refs) == AllRoutes(db, ws, refs[..k])
    decreases |refs|
  {
    hide RoutesOf;
    if k < |refs| {
      var n := |refs| - 1;
      assert refs[..n][..k] == refs[..k];
      ErrorStands(db, ws, refs[..n], k);
    } else {
      assert refs[..k] == refs;
    }
  }

  /** A type in lower case with dashes is read as it stands. */
  lemma PlainKind(kind: string)
    requires kind != "" && forall c :: c in kind ==> 'a' <= c <= 'z' || c == '-'
    ensures Dashes(ToLower(Trim(kind))) == kind
  {
    assert forall i :: 0 <= i < |kind| ==> kind[i] in kind;
    assert Trimmed(kind);
    hide Trim, TrimStart, TrimEnd, Trimmed;
    assert ToLower(kind) == kind;
  }

  predicate WallKind(kind: string) {
    kind in ["wall", "wall-group", "wall-member", "wall-region"]
  }

  lemma ReadsWall(db: Database, ws: string, ref: Ref, kind: string)
    requires ref.Typed? && Dashes(ToLower(Trim(ref.type_))) == kind
    requires WallKind(kind) && kind !in ["display", "group", "device-group"]
    ensures RoutesOf(db, ws, ref) == InWallRoutes(db, ws, kind, ref)
  {
    hide Trim, ToLower, Dashes, InWallRoutes, WallKind;
  }

  lemma WallReads(db: Database, ws: string, ref: Ref)
    requires ref.Typed? && ref.type_ == "wall"
    ensures RoutesOf(db, ws, ref) == InWallRoutes(db, ws, "wall", ref)
  {
    hide Trim, ToLower, Dashes, RoutesOf, InWallRoutes;
    PlainKind("wall");
    ReadsWall(db, ws, ref, "wall");
  }

  lemma GroupReads(db: Database, ws: string, ref: Ref)
    requires ref.Typed? && ref.type_ == "wall-group"
    ensures RoutesOf(db, ws, ref) == InWallRoutes(db, ws, "wall-group", ref)
  {
    hide Trim, ToLower, Dashes, RoutesOf, InWallRoutes;
    PlainKind("wall-group");
    ReadsWall(db, ws, ref, "wall-group");
  }

  lemma RegionReads(db: Database, ws: string, ref: Ref)
    requires ref.Typed? && ref.type_ == "wall-region"
    ensures RoutesOf(db, ws, ref) == InWallRoutes(db, ws, "wall-region", ref)
  {
    hide Trim, ToLower, Dashes, RoutesOf, InWallRoutes;
    PlainKind("wall-region");
    ReadsWall(db, ws, ref, "wall-region");
  }

  // --- A list of references is the union of its members ---

  predicate AllSucceed(db: Database, ws: string, refs: seq<Ref>) {
    forall ref :: ref in refs ==> RoutesOf(db, ws, ref).Ok?
  }

  /** The devices the references name, each alone. */
  function Union(db: Database, ws: string, refs: seq<Ref>): set<Id>
    requires AllSucceed(db, ws, refs)
  {
    set ref, d | ref in refs && d in Devices(RoutesOf(db, ws, ref).value) :: d
  }

  lemma DevicesAppend(a: seq<Route>, b: seq<Route>)
    ensures Devices(a + b) == Devices(a) + Devices(b)
  {
    assert forall r :: r in a + b <==> r in a || r in b;
  }

  /** A list of references resolves exactly when each reference alone does, and then to the
      duplicate-free union of the single results. */
  lemma {:induction false} ResolutionIsUnion(db: Database, ws: string, refs: seq<Ref>)
    ensures AllRoutes(db, ws, refs).Ok? <==> AllSucceed(db, ws, refs)
    ensures AllSucceed(db, ws, refs) ==> Devices(AllRoutes(db, ws, refs).value) == Union(db, ws, refs)
  {
    hide RoutesOf, Devices;
    if refs == [] {
      NoDevices();
    } else {
      var n := |refs| - 1;
      assert refs == refs[..n] + [refs[n]];
      ResolutionIsUnion(db, ws, refs[..n]);
      if AllSucceed(db, ws, refs) {
        DevicesAppend(AllRoutes(db, ws, refs[..n]).value, RoutesOf(db, ws, refs[n]).value);
        assert forall ref :: ref in refs <==> ref in refs[..n] || ref == refs[n];
      }
    }
  }

  lemma NoDevices()
    ensures Devices([]) == {}
  {
  }

  /** A failing list reports the error of its first failing reference. */
  lemma {:induction false} FirstErrorIsReported(db: Database, ws: string, refs: seq<Ref>, k: nat)
    requires k < |refs| && RoutesOf(db, ws, refs[k]).Err? && AllSucceed(db, ws, refs[..k])
    ensures AllRoutes(db, ws, refs) == RoutesOf(db, ws, refs[k])
  {
    hide RoutesOf;
    ResolutionIsUnion(db, ws, refs[..k]);
    assert refs[..k + 1][..k] == refs[..k];
    ErrorStands(db, ws, refs, k + 1);
  }

  // --- Targets and routes ---

  /** Route i is the first to ask for its key. */
  predicate IsFirst(routes: seq<Route>, i: nat)
    requires i < |routes|
  {
    routes[i].device != "" && forall j :: 0 <= j < i && routes[j].device != "" ==> Key(routes[j]) != Key(routes[i])
  }

  lemma {:induction false} KeptKeys(routes: seq<Route>)
    ensures forall k :: k in Keys(Kept(routes)) <==> exists j :: 0 <= j < |routes| && routes[j].device != "" && Key(routes[j]) == k
  {
    hide Key;
    if routes != [] {
      var n := |routes| - 1;
      KeptKeys(routes[..n]);
      var init := Kept(routes[..n]);
      if routes[n].device != "" && Key(routes[n]) !in Keys(init) {
        KeysAppend(init, routes[n]);
      }
      forall k | exists j :: 0 <= j < |routes| && routes[j].device != "" && Key(routes[j]) == k
        ensures k in Keys(Kept(routes))
      {
        var j :| 0 <= j < |routes| && routes[j].device != "" && Key(routes[j]) == k;
        assert j < n ==> routes[..n][j] == routes[j];
      }
    }
  }

  lemma KeysAppend(routes: seq<Route>, route: Route)
    ensures Keys(routes + [route]) == Keys(routes) + {Key(route)}
  {
    hide Key;
    assert forall r :: r in routes + [route] <==> r in routes || r == route;
  }

  /** r is in the list, as the first to ask for its key. */
  predicate AsksFirst(routes: seq<Route>, r: Route) {
    exists i :: 0 <= i < |routes| && IsFirst(routes, i) && routes[i] == r
  }

  lemma AsksFirstStep(routes: seq<Route>, r: Route)
    requires routes != []
    ensures var n := |routes| - 1;
      AsksFirst(routes, r) <==> AsksFirst(routes[..n], r) || (IsFirst(routes, n) && routes[n] == r)
  {
    hide Key;
    var n := |routes| - 1;
    forall i | 0 <= i < n ensures IsFirst(routes, i) <==> IsFirst(routes[..n], i) {
    }
    if AsksFirst(routes[..n], r) {
      var i :| 0 <= i < n && IsFirst(routes[..n], i) && routes[..n][i] == r;
      assert IsFirst(routes, i) && routes[i] == r;
    }
    if AsksFirst(routes, r) {
      var i :| 0 <= i < |routes| && IsFirst(routes, i) && routes[i] == r;
      assert i < n ==> IsFirst(routes[..n], i) && routes[..n][i] == r;
    }
  }

  lemma LastIsFirstIff(routes: seq<Route>)
    requires routes != []
    ensures var n := |routes| - 1;
      IsFirst(routes, n) <==> routes[n].device != "" && Key(routes[n]) !in Keys(Kept(routes[..n]))
  {
    hide Key, Kept, Keys;
    var n := |routes| - 1;
    KeptKeys(routes[..n]);
    assert forall j :: 0 <= j < n ==> routes[..n][j] == routes[j];
  }

  lemma {:induction false} KeptIff(routes: seq<Route>, r: Route)
    ensures r in Kept(routes) <==> AsksFirst(routes, r)
  {
    hide Key, IsFirst, AsksFirst;
    if routes == [] {
      NoneAsks(r);
    } else {
      KeptIff(routes[..|routes| - 1], r);
      AsksFirstStep(routes, r);
      LastIsFirstIff(routes);
    }
  }

  lemma NoneAsks(r: Route)
    ensures !AsksFirst([], r)
  {
  }

  /** Every route of this device comes after another device's route with the same key. */
  predicate Shadowed(routes: seq<Route>, d: Id) {
    forall i :: 0 <= i < |routes| && routes[i].device == d ==> ShadowedAt(routes, i)
  }

  predicate ShadowedAt(routes: seq<Route>, i: nat)
    requires i < |routes|
  {
    exists j :: 0 <= j < i && routes[j].device !in {"", routes[i].device} && Key(routes[j]) == Key(routes[i])
  }

  /** A target keeps a route exactly when it is not shadowed. */
  lemma KeepsRouteIff(routes: seq<Route>, d: Id)
    requires d in Devices(routes)
    ensures d in Devices(Kept(routes)) <==> !Shadowed(routes, d)
  {
    hide Key, Kept, AsksFirst;
    if d in Devices(Kept(routes)) {
      var r :| r in Kept(routes) && r.device == d;
      KeptIff(routes, r);
      var i := AskedAt(routes, r);
      assert !ShadowedAt(routes, i);
    }
    if !Shadowed(routes, d) {
      var i :| 0 <= i < |routes| && routes[i].device == d && !ShadowedAt(routes, i);
      var f := FirstWithKey(routes, i);
      assert routes[f].device == d;
      FirstIsKept(routes, f);
    }
  }

  lemma AskedAt(routes: seq<Route>, r: Route) returns (i: nat)
    requires AsksFirst(routes, r)
    ensures i < |routes| && IsFirst(routes, i) && routes[i] == r
  {
    i :| 0 <= i < |routes| && IsFirst(routes, i) && routes[i] == r;
  }

  lemma FirstIsKept(routes: seq<Route>, i: nat)
    requires i < |routes| && IsFirst(routes, i)
    ensures routes[i] in Kept(routes)
  {
    assert AsksFirst(routes, routes[i]);
    KeptIff(routes, routes[i]);
  }

  /** The routes go to targets only, and to every target exactly when none is shadowed. */
  lemma TargetsHaveRoutesIff(routes: seq<Route>)
    ensures Devices(Kept(routes)) <= Devices(routes)
    ensures Devices(Kept(routes)) == Devices(routes) <==> !exists d :: d in Devices(routes) && Shadowed(routes, d)
  {
    hide Key, Kept, Shadowed, AsksFirst, IsFirst;
    forall r | r in Kept(routes) ensures r in routes {
      KeptIff(routes, r);
      var i := AskedAt(routes, r);
    }
    forall d | d in Devices(routes) ensures d in Devices(Kept(routes)) <==> !Shadowed(routes, d) {
      KeepsRouteIff(routes, d);
    }
  }

  /** Device ids without a colon (they are UUIDs) keep the keys of different devices apart:
      then the targets are the devices of the routes. */
  lemma PlainIdsKeepRoutes(routes: seq<Route>)
    requires forall r :: r in routes ==> ':' !in r.device
    ensures Devices(Kept(routes)) == Devices(routes)
  {
    hide Kept, Key;
    forall d | d in Devices(routes) ensures !Shadowed(routes, d) {
      var r :| r in routes && r.device == d && d != "";
      var i :| 0 <= i < |routes| && routes[i] == r;
      forall j | 0 <= j < i && routes[j].device !in {"", d} ensures Key(routes[j]) != Key(routes[i]) {
        if Key(routes[j]) == Key(routes[i]) {
          KeysApart(routes[j], routes[i]);
        }
      }
    }
    TargetsHaveRoutesIff(routes);
  }

  lemma {:induction false} FirstWithKey(routes: seq<Route>, i: nat) returns (f: nat)
    requires i < |routes| && routes[i].device != ""
    ensures f <= i && IsFirst(routes, f) && Key(routes[f]) == Key(routes[i])
  {
    hide Key;
    if IsFirst(routes, i) {
      f := i;
    } else {
      var j :| 0 <= j < i && routes[j].device != "" && Key(routes[j]) == Key(routes[i]);
      f := FirstWithKey(routes, j);
    }
  }

  function KeyDevice(key: string): Id {
    key[..IndexOf(key, ':')]
  }

  lemma KeyNamesDevice(r: Route)
    requires ':' !in r.device
    ensures KeyDevice(Key(r)) == r.device
  {
    if r.kind.ToWallRegion? {
      assert Key(r) == r.device + [':'] + ("region:" + r.region);
      IndexOfAppend(r.device, ':', "region:" + r.region);
    } else {
      IndexOfAbsent(r.device, ':');
    }
  }

  lemma KeysApart(a: Route, b: Route)
    requires Key(a) == Key(b) && ':' !in a.device && ':' !in b.device
    ensures a.device == b.device
  {
    KeyNamesDevice(a);
    KeyNamesDevice(b);
  }

  /** A split wall "w" whose one player "a" shows a region "1", and a display whose id is
      that region's key. */
  function CollidingDatabase(ws: string): Database {
    Database(map["a:region:1" := Device(ws)], map[], map["w" := SplitWall(ws)], {("z", "a")})
  }

  function SplitWall(ws: string): Wall {
    Wall(ws, true, Some(1), [Member("a", Some(ws))], Some(Layout([], [Region("1", true, "a", "z", 1)])))
  }

  function RegionRef(): Ref {
    Typed("wall-region", "", "", "w", "", "1", Some(1))
  }

  function DisplayRef(id: Id): Ref {
    Typed("display", id, "", "", "", "", None)
  }

  lemma SplitWallLoads(ws: string)
    ensures LoadWall(CollidingDatabase(ws), ws, "w", Some(1)) == Ok(SplitWall(ws))
  {
    var members := SplitWall(ws).members;
    assert members[0] in members;
    assert !Foreign(members, ws);
  }

  lemma SplitWallRegion(ws: string)
    ensures WallRegionRoutes(CollidingDatabase(ws), "w", SplitWall(ws), "1") ==
      Ok([Route(ToWallRegion, "a", "w", "", "1", "z", Some(1))])
  {
  }

  lemma RegionRefRoutes(ws: string)
    ensures RoutesOf(CollidingDatabase(ws), ws, RegionRef()) == Ok([Route(ToWallRegion, "a", "w", "", "1", "z", Some(1))])
  {
    hide RoutesOf, LoadWall, WallRegionRoutes, CollidingDatabase, SplitWall;
    SplitWallLoads(ws);
    SplitWallRegion(ws);
    RegionReads(CollidingDatabase(ws), ws, RegionRef());
  }

  lemma DisplayRefRoutes(ws: string)
    ensures RoutesOf(CollidingDatabase(ws), ws, DisplayRef("a:region:1")) ==
      Ok([Route(ToDisplay, "a:region:1", "", "", "", "", None)])
  {
    PlainKind("display");
    hide Trim, ToLower, Dashes;
  }

  /** With such an id the resolver answers with a target that it gives no route. */
  lemma RegionKeyCollides(ws: string)
    ensures var all := AllRoutes(CollidingDatabase(ws), ws, [RegionRef(), DisplayRef("a:region:1")]);
      && all.Ok? && Targets(all.value) == ["a", "a:region:1"]
      && Kept(all.value) == [Route(ToWallRegion, "a", "w", "", "1", "z", Some(1))]
  {
    RegionRefRoutes(ws);
    DisplayRefRoutes(ws);
    hide RoutesOf, AllRoutes, Targets, Kept, CollidingDatabase, RegionRef, DisplayRef;
    var region := Route(ToWallRegion, "a", "w", "", "1", "z", Some(1));
    var display := Route(ToDisplay, "a:region:1", "", "", "", "", None);
    TwoReferences(CollidingDatabase(ws), ws, RegionRef(), DisplayRef("a:region:1"), region, display);
    assert Key(region) == Key(display);
    hide Key;
    OneKeyTwoDevices(region, display);
  }

  lemma TwoReferences(db: Database, ws: string, a: Ref, b: Ref, x: Route, y: Route)
    requires RoutesOf(db, ws, a) == Ok([x]) && RoutesOf(db, ws, b) == Ok([y])
    ensures AllRoutes(db, ws, [a, b]) == Ok([x, y])
  {
    hide RoutesOf;
    assert [a, b][..1] == [a] && [a][..0] == [];
    assert [] + [x] == [x] && [x] + [y] == [x, y];
    assert AllRoutes(db, ws, [a]) == Ok([x]);
  }

  lemma OneKeyTwoDevices(x: Route, y: Route)
    requires x.device != "" && y.device !in {"", x.device} && Key(x) == Key(y)
    ensures Targets([x, y]) == [x.device, y.device] && Kept([x, y]) == [x]
  {
    AskFirst(x);
    AskOne([x], y);
    hide Targets, Kept, Keys, Key;
    assert [x] + [y] == [x, y];
    assert [x.device] + [y.device] == [x.device, y.device];
  }

  lemma AskFirst(x: Route)
    requires x.device != ""
    ensures Targets([x]) == [x.device] && Kept([x]) == [x] && Keys(Kept([x])) == {Key(x)}
  {
    var none: seq<Route> := [];
    assert [x][..0] == none;
    assert Targets(none) == [] && Kept(none) == [];
    assert Keys(none) == {};
    assert forall r :: r in [x] <==> r == x;
  }

  // --- What each kind of reference reaches ---

  function KindOf(ref: Ref): string
    requires ref.Typed?
  {
    Dashes(ToLower(Trim(ref.type_)))
  }

  lemma DisplayIsReached(db: Database, ws: string, ref: Ref)
    requires ref.Typed? && KindOf(ref) == "display"
    ensures var r := RoutesOf(db, ws, ref);
      && (r.Ok? <==> ref.id != "" && ref.id in db.devices && db.devices[ref.id].workspace == ws)
      && (r.Ok? ==> r.value == [Route(ToDisplay, ref.id, "", "", "", "", None)])
      && (r == Err(NotFound) <==> ref.id != "" && ref.id !in db.devices)
      && (r == Err(Forbidden) <==> ref.id != "" && ref.id in db.devices && db.devices[ref.id].workspace != ws)
      && (r == Err(BadRequest) <==> ref.id == "")
  {
    hide Trim, ToLower, Dashes;
  }

  /** Membership rows that all belong to the workspace. */
  ghost predicate AllOwn(members: seq<Member>, ws: string) {
    members != [] && forall i :: 0 <= i < |members| ==> members[i].workspace == Some(ws)
  }

  /** One route to each member, in order, with these particulars. */
  ghost predicate RoutesToMembers(routes: seq<Route>, members: seq<Member>, kind: RouteKind, wall: Id, group: Id, revision: Option<nat>) {
    && |routes| == |members|
    && forall i :: 0 <= i < |routes| ==> routes[i] == Route(kind, members[i].device, wall, group, "", "", revision)
  }

  lemma AllOwnIff(members: seq<Member>, ws: string)
    ensures AllOwn(members, ws) <==> members != [] && !Foreign(members, ws)
  {
    assert forall i :: 0 <= i < |members| ==> members[i] in members;
  }

  lemma DeviceGroupIsReached(db: Database, ws: string, ref: Ref, id: Id)
    requires ref.Typed? && KindOf(ref) in {"group", "device-group"} && id == (if ref.id != "" then ref.id else ref.groupId)
    ensures var r := RoutesOf(db, ws, ref);
      && (r.Ok? <==> id != "" && id in db.groups && db.groups[id].workspace == ws && AllOwn(db.groups[id].members, ws))
      && (r.Ok? ==> RoutesToMembers(r.value, db.groups[id].members, ToDeviceGroup, "", id, None))
      && (r == Err(NotFound) <==> id != "" && id !in db.groups)
      && (r == Err(Forbidden) <==> id != "" && id in db.groups && db.groups[id].workspace != ws)
      && (r == Err(BadRequest) <==> id == "")
  {
    hide Trim, ToLower, Dashes, Foreign, AllOwn;
    if id in db.groups {
      AllOwnIff(db.groups[id].members, ws);
    }
  }

  /** The wall that a reference may address: of the workspace, at the revision named, with
      members that all belong to it. */
  ghost predicate Addresses(db: Database, ws: string, ref: Ref, id: Id)
    requires ref.Typed?
  {
    && id != "" && id in db.walls && db.walls[id].workspace == ws
    && db.walls[id].revision.Some? && ref.revision == db.walls[id].revision
    && AllOwn(db.walls[id].members, ws)
  }

  lemma WallLoadsIff(db: Database, ws: string, ref: Ref, id: Id)
    requires ref.Typed? && id != ""
    ensures var r := LoadWall(db, ws, id, ref.revision);
      && (r.Ok? <==> Addresses(db, ws, ref, id))
      && (r.Ok? ==> r.value == db.walls[id])
      && (r == Err(Forbidden) <==> id in db.walls && db.walls[id].workspace != ws)
      && (r.Err? ==> r.error in {Forbidden, LayoutConflict})
  {
    hide Foreign, AllOwn;
    if id in db.walls {
      AllOwnIff(db.walls[id].members, ws);
    }
  }

  /** The wall shows its enabled regions on its one player. */
  ghost predicate IsMosaic(wall: Wall) {
    && wall.split && |wall.members| == 1 && wall.layout.Some?
    && exists x :: x in wall.layout.value.regions && x.enabled
  }

  /** Each enabled region is bound to the player's layout. */
  ghost predicate RegionsBound(db: Database, wall: Wall)
    requires IsMosaic(wall)
  {
    forall x :: x in wall.layout.value.regions && x.enabled ==> (x.zone, wall.members[0].device) in db.zones
  }

  /** The routes of a mosaic are those of its enabled regions. */
  ghost predicate RoutesToRegions(routes: seq<Route>, id: Id, wall: Wall)
    requires IsMosaic(wall)
  {
    var player := wall.members[0].device;
    forall route :: route in routes <==>
      exists x :: x in wall.layout.value.regions && x.enabled && route == Route(ToWallRegion, player, id, "", x.id, x.zone, wall.revision)
  }

  lemma EnabledIff(wall: Wall)
    requires wall.layout.Some? && wall.split && |wall.members| == 1
    ensures Enabled(wall.layout.value.regions) != [] <==> IsMosaic(wall)
  {
    var enabled := Enabled(wall.layout.value.regions);
    assert enabled != [] ==> enabled[0] in enabled;
  }

  lemma RegionRoutesAre(db: Database, id: Id, wall: Wall)
    requires IsMosaic(wall)
    ensures var enabled := Enabled(wall.layout.value.regions);
      && (Unbound(db, enabled, wall.members[0].device) <==> !RegionsBound(db, wall))
      && RoutesToRegions(RegionRoutes(enabled, wall.members[0].device, id, wall.revision), id, wall)
  {
    var enabled, player := Enabled(wall.layout.value.regions), wall.members[0].device;
    var routes := RegionRoutes(enabled, player, id, wall.revision);
    hide Enabled;
    forall route | route in routes
      ensures exists x :: x in wall.layout.value.regions && x.enabled && route == Route(ToWallRegion, player, id, "", x.id, x.zone, wall.revision)
    {
      var i :| 0 <= i < |routes| && routes[i] == route;
      assert enabled[i] in enabled;
    }
    forall x | x in wall.layout.value.regions && x.enabled
      ensures Route(ToWallRegion, player, id, "", x.id, x.zone, wall.revision) in routes
    {
      var i :| 0 <= i < |enabled| && enabled[i] == x;
      assert routes[i] in routes;
    }
  }

  lemma WallIsReached(db: Database, ws: string, ref: Ref)
    requires ref.Typed? && KindOf(ref) == "wall"
    ensures var r, id := RoutesOf(db, ws, ref), ref.id;
      && (r.Ok? <==> Addresses(db, ws, ref, id) && db.walls[id].layout.Some? && (IsMosaic(db.walls[id]) ==> RegionsBound(db, db.walls[id])))
      && (r.Ok? && IsMosaic(db.walls[id]) ==> RoutesToRegions(r.value, id, db.walls[id]))
      && (r.Ok? && !IsMosaic(db.walls[id]) ==> RoutesToMembers(r.value, db.walls[id].members, ToWall, id, "", db.walls[id].revision))
      && (r == Err(InvalidLayout) <==> Addresses(db, ws, ref, id) && db.walls[id].layout.None?)
  {
    hide RoutesOf, LoadWall, AllOwn, Enabled, RegionsBound, RoutesToRegions, RegionRoutes, Unbound;
    ReadsWall(db, ws, ref, "wall");
    if ref.id != "" {
      WallLoadsIff(db, ws, ref, ref.id);
      if Addresses(db, ws, ref, ref.id) && db.walls[ref.id].layout.Some? {
        var wall := db.walls[ref.id];
        if wall.split && |wall.members| == 1 {
          EnabledIff(wall);
        }
        if IsMosaic(wall) {
          RegionRoutesAre(db, ref.id, wall);
        }
      }
    }
  }

  lemma WallMemberIsReached(db: Database, ws: string, ref: Ref, device: Id)
    requires ref.Typed? && KindOf(ref) == "wall-member" && device == (if ref.deviceId != "" then ref.deviceId else ref.id)
    ensures var r, id := RoutesOf(db, ws, ref), ref.wallId;
      && (r.Ok? <==>
            && Addresses(db, ws, ref, id) && device != "" && db.walls[id].split && |db.walls[id].members| > 1
            && exists m :: m in db.walls[id].members && m.device == device)
      && (r.Ok? ==> r.value == [Route(ToWallMember, device, id, "", "", "", db.walls[id].revision)])
  {
    hide RoutesOf, LoadWall, AllOwn;
    ReadsWall(db, ws, ref, "wall-member");
    if ref.wallId != "" {
      WallLoadsIff(db, ws, ref, ref.wallId);
      if Addresses(db, ws, ref, ref.wallId) {
        var members := db.walls[ref.wallId].members;
        assert forall i :: 0 <= i < |members| ==> members[i] in members;
      }
    }
  }

  /** The region at `k` is the first with this id; it is enabled, current, on the wall's player,
      and bound to that player's layout under its zone or else its own id. */
  ghost predicate Shows(db: Database, wall: Wall, id: Id, k: nat, zone: Id)
    requires wall.layout.Some? && k < |wall.layout.value.regions| && wall.members != []
  {
    var region := wall.layout.value.regions[k];
    && IsFirstRegion(wall.layout.value.regions, id, k) && region.enabled && wall.revision == Some(region.revision) && region.player != ""
    && region.player == wall.members[0].device
    && zone == (if region.zone != "" then region.zone else region.id) && (zone, region.player) in db.zones
  }

  predicate IsFirstRegion(regions: seq<Region>, id: Id, k: nat)
    requires k < |regions|
  {
    regions[k].id == id && forall j :: 0 <= j < k ==> regions[j].id != id
  }

  lemma {:induction false} FindRegionIff(regions: seq<Region>, id: Id) returns (k: nat)
    ensures FindRegion(regions, id).Some? <==> k < |regions|
    ensures k < |regions| ==> FindRegion(regions, id).value == regions[k] && IsFirstRegion(regions, id, k)
    ensures forall j :: 0 <= j < |regions| && j < k ==> regions[j].id != id
  {
    k := 0;
    if regions != [] && regions[0].id != id {
      var rest := regions[1..];
      k := FindRegionIff(rest, id);
      k := k + 1;
      assert forall j :: 1 <= j < |regions| ==> regions[j] == rest[j - 1];
    }
  }

  lemma WallRegionMeans(db: Database, wallId: Id, wall: Wall, id: Id) returns (k: nat, zone: Id)
    requires wall.split && |wall.members| == 1 && wall.layout.Some? && id != ""
    ensures var r, regions := WallRegionRoutes(db, wallId, wall, id), wall.layout.value.regions;
      && (r.Ok? <==> k < |regions| && zone != "" && Shows(db, wall, id, k, zone))
      && (r.Ok? ==> r.value == [Route(ToWallRegion, wall.members[0].device, wallId, "", id, zone, wall.revision)])
      && (forall j: nat, z :: j < |regions| && Shows(db, wall, id, j, z) ==> j == k && z == zone)
  {
    hide FindRegion;
    var regions := wall.layout.value.regions;
    k := FindRegionIff(regions, id);
    zone := if k < |regions| then Or(regions[k].zone, regions[k].id) else "";
  }

  lemma WallRegionIsReached(db: Database, ws: string, ref: Ref, region: Id)
    requires ref.Typed? && KindOf(ref) == "wall-region" && region == (if ref.regionId != "" then ref.regionId else ref.id)
    ensures var r, id := RoutesOf(db, ws, ref), ref.wallId;
      && (r.Ok? <==>
            && Addresses(db, ws, ref, id) && region != "" && db.walls[id].split && |db.walls[id].members| == 1
            && db.walls[id].layout.Some?
            && exists k: nat, zone :: k < |db.walls[id].layout.value.regions| && zone != "" && Shows(db, db.walls[id], region, k, zone))
      && (r.Ok? ==> exists k: nat, zone ::
            && k < |db.walls[id].layout.value.regions| && Shows(db, db.walls[id], region, k, zone)
            && r.value == [Route(ToWallRegion, db.walls[id].members[0].device, id, "", region, zone, db.walls[id].revision)])
  {
    hide RoutesOf, LoadWall, AllOwn, Shows;
    ReadsWall(db, ws, ref, "wall-region");
    if ref.wallId != "" {
      WallLoadsIff(db, ws, ref, ref.wallId);
      if Addresses(db, ws, ref, ref.wallId) && region != "" {
        var wall := db.walls[ref.wallId];
        if wall.split && |wall.members| == 1 && wall.layout.Some? {
          var k, zone := WallRegionMeans(db, ref.wallId, wall, region);
          hide WallRegionRoutes;
        }
      }
    }
  }

  /** The group at `k` is the first with this id. */
  ghost predicate NamesGroup(groups: seq<LayoutGroup>, id: Id, k: nat)
    requires k < |groups|
  {
    groups[k].id == id && forall j :: 0 <= j < k ==> groups[j].id != id
  }

  lemma WallGroupIsReached(db: Database, ws: string, ref: Ref, group: Id)
    requires ref.Typed? && KindOf(ref) == "wall-group" && group == (if ref.groupId != "" then ref.groupId else ref.id)
    ensures var r, id := RoutesOf(db, ws, ref), ref.wallId;
      && (r.Ok? <==>
            && Addresses(db, ws, ref, id) && group != "" && db.walls[id].layout.Some?
            && CompleteLayout(db.walls[id].layout.value.groups, MemberIds(db.walls[id].members))
            && exists k :: 0 <= k < |db.walls[id].layout.value.groups| && NamesGroup(db.walls[id].layout.value.groups, group, k))
      && (r.Ok? ==> exists k ::
            && 0 <= k < |db.walls[id].layout.value.groups| && NamesGroup(db.walls[id].layout.value.groups, group, k)
            && var members := db.walls[id].layout.value.groups[k].members;
               members.Some? && r.value == RouteEach(members.value, Route(ToWallGroup, "", id, group, "", "", db.walls[id].revision)))
  {
    hide RoutesOf, LoadWall, AllOwn, FindGroup;
    ReadsWall(db, ws, ref, "wall-group");
    if ref.wallId != "" {
      WallLoadsIff(db, ws, ref, ref.wallId);
      if Addresses(db, ws, ref, ref.wallId) && db.walls[ref.wallId].layout.Some? {
        var wall := db.walls[ref.wallId];
        var groups, members := wall.layout.value.groups, MemberIds(wall.members);
        GroupFoundIff(groups, group);
        if CompleteLayout(groups, members) && FindGroup(groups, group).Some? {
          CompleteGroupIsUsable(groups, members, FindGroup(groups, group).value);
        }
        hide CompleteLayout;
      }
    }
  }

  lemma CompleteGroupIsUsable(groups: seq<LayoutGroup>, members: seq<Id>, group: LayoutGroup)
    requires CompleteLayout(groups, members) && group in groups
    ensures group.members.Some? && group.members.value != [] && forall d :: d in group.members.value ==> d in members
  {
    CompleteLayoutPartitions(groups, members);
    forall d | d in group.members.value ensures d in members {
      GroupMembers(groups, d);
      assert d in ToSet(members);
    }
  }

  lemma {:induction false} GroupFoundIff(groups: seq<LayoutGroup>, id: Id)
    ensures FindGroup(groups, id).Some? ==>
      FindGroup(groups, id).value in groups && exists k :: 0 <= k < |groups| && FindGroup(groups, id).value == groups[k] && NamesGroup(groups, id, k)
    ensures FindGroup(groups, id).None? ==> forall k :: 0 <= k < |groups| ==> groups[k].id != id
  {
    if groups != [] {
      if groups[0].id == id {
        assert NamesGroup(groups, id, 0);
      } else {
        var rest := groups[1..];
        GroupFoundIff(rest, id);
        if FindGroup(rest, id).Some? {
          var k :| 0 <= k < |rest| && FindGroup(rest, id).value == rest[k] && NamesGroup(rest, id, k);
          assert groups[k + 1] == rest[k];
          assert forall j :: 1 <= j < k + 1 ==> groups[j] == rest[j - 1];
          assert NamesGroup(groups, id, k + 1);
        } else {
          assert forall k :: 1 <= k < |groups| ==> groups[k] == rest[k - 1];
        }
      }
    }
  }

  lemma OtherKindsAreRefused(db: Database, ws: string, ref: Ref)
    ensures ref.NotAnObject? || KindOf(ref) !in {"display", "group", "device-group", "wall", "wall-group", "wall-member", "wall-region"} ==>
      RoutesOf(db, ws, ref) == Err(BadRequest)
  {
    hide Trim, ToLower, Dashes;
  }

  // --- Nothing outside the workspace ---

  /** The device belongs to the workspace: by its own row, or by a membership row of a group
      or wall of that workspace. */
  ghost predicate InWorkspace(db: Database, ws: string, d: Id) {
    || (d in db.devices && db.devices[d].workspace == ws)
    || (exists g :: g in db.groups && db.groups[g].workspace == ws && Member(d, Some(ws)) in db.groups[g].members)
    || (exists w :: w in db.walls && db.walls[w].workspace == ws && Member(d, Some(ws)) in db.walls[w].members)
  }

  lemma MembersInWorkspace(db: Database, ws: string, ref: Ref, id: Id, d: Id)
    requires ref.Typed? && Addresses(db, ws, ref, id) && d in MemberIds(db.walls[id].members)
    ensures InWorkspace(db, ws, d)
  {
    var members := db.walls[id].members;
    var i :| 0 <= i < |members| && members[i].device == d;
    assert members[i] == Member(d, Some(ws)) && members[i] in members;
  }

  lemma WallRoutesInWorkspace(db: Database, ws: string, ref: Ref, kind: string)
    requires ref.Typed? && KindOf(ref) == kind && kind in {"wall", "wall-group", "wall-member", "wall-region"}
    requires RoutesOf(db, ws, ref).Ok?
    ensures forall r :: r in RoutesOf(db, ws, ref).value ==> InWorkspace(db, ws, r.device)
  {
    hide InWorkspace, LoadWall, Enabled, Unbound, FindRegion, FindGroup, CompleteLayout, RoutesOf, AllOwn;
    var routes := RoutesOf(db, ws, ref).value;
    var id := if kind == "wall" then ref.id else ref.wallId;
    ReadsWall(db, ws, ref, kind);
    WallLoadsIff(db, ws, ref, id);
    assert Addresses(db, ws, ref, id);
    forall r | r in routes ensures InWorkspace(db, ws, r.device) {
      RouteToMember(db, id, db.walls[id], ref, kind, routes, r);
      MembersInWorkspace(db, ws, ref, id, r.device);
    }
  }

  lemma RouteToMember(db: Database, id: Id, wall: Wall, ref: Ref, kind: string, routes: seq<Route>, r: Route)
    requires ref.Typed? && wall.members != [] && r in routes && kind in {"wall", "wall-group", "wall-member", "wall-region"}
    requires Ok(routes) == (
      if kind == "wall" then WallRoutes(db, id, wall)
      else if kind == "wall-member" then WallMemberRoutes(id, wall, Or(ref.deviceId, ref.id))
      else if kind == "wall-region" then WallRegionRoutes(db, id, wall, Or(ref.regionId, ref.id))
      else WallGroupRoutes(id, wall, Or(ref.groupId, ref.id)))
    ensures r.device in MemberIds(wall.members)
  {
    hide Enabled, Unbound, FindRegion, FindGroup, CompleteLayout;
    var members := MemberIds(wall.members);
    var i :| 0 <= i < |routes| && routes[i] == r;
    assert members[0] in members;
  }

  /** Every device that a request resolves to belongs to the workspace of the request. */
  lemma TargetsStayInWorkspace(db: Database, ws: string, refs: seq<Ref>, d: Id)
    requires AllRoutes(db, ws, refs).Ok? && d in Targets(AllRoutes(db, ws, refs).value)
    ensures InWorkspace(db, ws, d)
  {
    hide RoutesOf, InWorkspace, AllRoutes, Targets;
    ResolutionIsUnion(db, ws, refs);
    var ref: Ref :| ref in refs && d in Devices(RoutesOf(db, ws, ref).value);
    var r :| r in RoutesOf(db, ws, ref).value && r.device == d;
    ReferenceStaysInWorkspace(db, ws, ref, r);
  }

  lemma ReferenceStaysInWorkspace(db: Database, ws: string, ref: Ref, r: Route)
    requires RoutesOf(db, ws, ref).Ok? && r in RoutesOf(db, ws, ref).value
    ensures InWorkspace(db, ws, r.device)
  {
    hide RoutesOf, KindOf;
    OtherKindsAreRefused(db, ws, ref);
    var kind := KindOf(ref);
    if kind == "display" {
      DisplayIsReached(db, ws, ref);
    } else if kind in {"group", "device-group"} {
      var id := if ref.id != "" then ref.id else ref.groupId;
      DeviceGroupIsReached(db, ws, ref, id);
      var routes, members := RoutesOf(db, ws, ref).value, db.groups[id].members;
      var i :| 0 <= i < |routes| && routes[i] == r;
      assert members[i] == Member(r.device, Some(ws)) && members[i] in members;
    } else {
      WallRoutesInWorkspace(db, ws, ref, kind);
    }
  }

  // --- Naming all groups of a wall ---

  /** One reference per group of the layout. */
  function GroupRefs(wallId: Id, groups: seq<LayoutGroup>, revision: Option<nat>): (r: seq<Ref>)
    ensures |r| == |groups|
    ensures forall i :: 0 <= i < |r| ==> r[i] == Typed("wall-group", "", groups[i].id, wallId, "", "", revision)
  {
    seq(|groups|, i requires 0 <= i < |groups| => Typed("wall-group", "", groups[i].id, wallId, "", "", revision))
  }

  function WallRef(wallId: Id, revision: Option<nat>): Ref {
    Typed("wall", wallId, "", "", "", "", revision)
  }

  lemma {:induction false} GroupMembers(groups: seq<LayoutGroup>, d: Id)
    ensures d in LayoutMembers(groups) <==> exists g :: g in groups && g.members.Some? && d in g.members.value
  {
    if groups != [] {
      GroupMembers(groups[1..], d);
      assert groups == [groups[0]] + groups[1..];
    }
  }

  lemma SubsetOfSameSize(a: set<Id>, b: set<Id>)
    requires a <= b && |a| == |b|
    ensures a == b
  {
    assert |b - a| == |b| - |a|;
  }

  /** A complete layout partitions the wall: comparing sizes decides it. */
  lemma CompleteLayoutPartitions(groups: seq<LayoutGroup>, members: seq<Id>)
    requires CompleteLayout(groups, members)
    ensures ToSet(LayoutMembers(groups)) == ToSet(members)
    ensures Sorting.Distinct(LayoutMembers(groups))
  {
    SubsetOfSameSize(ToSet(members), ToSet(LayoutMembers(groups)));
    assert Sorting.Elements(LayoutMembers(groups)) == ToSet(LayoutMembers(groups));
    Sorting.DistinctCount(LayoutMembers(groups));
  }

  /** The groups, no two of which share an id, all with one. */
  predicate NamedApart(groups: seq<LayoutGroup>) {
    && (forall i :: 0 <= i < |groups| ==> groups[i].id != "")
    && forall i, j :: 0 <= i < j < |groups| ==> groups[i].id != groups[j].id
  }

  lemma {:induction false} FindGroupIsFirst(groups: seq<LayoutGroup>, k: nat) returns (f: nat)
    requires k < |groups|
    ensures f <= k && FindGroup(groups, groups[k].id) == Some(groups[f]) && groups[f].id == groups[k].id
    ensures forall j :: 0 <= j < f ==> groups[j].id != groups[k].id
  {
    if groups[0].id == groups[k].id {
      f := 0;
    } else {
      f := FindGroupIsFirst(groups[1..], k - 1);
      f := f + 1;
    }
  }

  /** Groups of a partition share no member. */
  lemma {:induction false} MembersApart(groups: seq<LayoutGroup>, a: nat, b: nat, d: Id)
    requires Sorting.Distinct(LayoutMembers(groups)) && a < b < |groups|
    requires groups[a].members.Some? && groups[b].members.Some? && d in groups[a].members.value
    ensures d !in groups[b].members.value
  {
    var own := if groups[0].members.Some? then groups[0].members.value else [];
    var rest := LayoutMembers(groups[1..]);
    var all := LayoutMembers(groups);
    assert all == own + rest;
    assert forall i :: 0 <= i < |rest| ==> rest[i] == all[|own| + i];
    if a == 0 {
      var i :| 0 <= i < |own| && own[i] == d;
      forall j | 0 <= j < |rest| ensures rest[j] != d {
        assert all[i] != all[|own| + j];
      }
      assert groups[1..][b - 1] in groups[1..];
      GroupMembers(groups[1..], d);
    } else {
      MembersApart(groups[1..], a - 1, b - 1, d);
    }
  }

  lemma RouteEachDevices(devices: seq<Id>, like: Route)
    requires "" !in devices
    ensures Devices(RouteEach(devices, like)) == ToSet(devices)
  {
    var routes := RouteEach(devices, like);
    forall d | d in devices ensures d in Devices(routes) {
      var i :| 0 <= i < |devices| && devices[i] == d;
      assert routes[i] in routes;
    }
  }

  /** One group of a complete layout, named by its id. */
  lemma GroupIsResolved(db: Database, ws: string, wallId: Id, wall: Wall, k: nat, f: nat)
    requires wallId != "" && LoadWall(db, ws, wallId, wall.revision) == Ok(wall) && wall.layout.Some?
    requires CompleteLayout(wall.layout.value.groups, MemberIds(wall.members)) && "" !in MemberIds(wall.members)
    requires k < |wall.layout.value.groups| && f < |wall.layout.value.groups|
    requires FindGroup(wall.layout.value.groups, wall.layout.value.groups[k].id) == Some(wall.layout.value.groups[f])
    ensures var groups := wall.layout.value.groups;
      var one := RoutesOf(db, ws, GroupRefs(wallId, groups, wall.revision)[k]);
      && (one.Ok? <==> groups[k].id != "")
      && (one.Ok? ==> Devices(one.value) == ToSet(groups[f].members.value))
  {
    hide LoadWall, RoutesOf;
    GroupReads(db, ws, GroupRefs(wallId, wall.layout.value.groups, wall.revision)[k]);
    var groups, members := wall.layout.value.groups, MemberIds(wall.members);
    var found := groups[f];
    assert found in groups;
    CompleteLayoutPartitions(groups, members);
    forall d | d in found.members.value ensures d in members {
      GroupMembers(groups, d);
      assert d in ToSet(members);
    }
    hide CompleteLayout;
    RouteEachDevices(found.members.value, Route(ToWallGroup, "", wallId, groups[k].id, "", "", wall.revision));
  }

  lemma WallDevices(db: Database, ws: string, wallId: Id, wall: Wall)
    requires wallId != "" && LoadWall(db, ws, wallId, wall.revision) == Ok(wall)
    requires RoutesOf(db, ws, WallRef(wallId, wall.revision)).Ok? && "" !in MemberIds(wall.members)
    ensures Devices(RoutesOf(db, ws, WallRef(wallId, wall.revision)).value) == ToSet(MemberIds(wall.members))
  {
    hide LoadWall, RoutesOf, Enabled;
    WallReads(db, ws, WallRef(wallId, wall.revision));
    var routes := RoutesOf(db, ws, WallRef(wallId, wall.revision)).value;
    assert WallRoutes(db, wallId, wall) == Ok(routes);
    var members := MemberIds(wall.members);
    var mosaic := if wall.split && |wall.members| == 1 then Enabled(wall.layout.value.regions) else [];
    if mosaic == [] {
      RouteEachDevices(members, Route(ToWall, "", wallId, "", "", "", wall.revision));
    } else {
      assert routes == RegionRoutes(mosaic, members[0], wallId, wall.revision);
      assert routes[0] in routes && ToSet(members) == {members[0]};
    }
  }

  /** What naming every group resolves to. */
  predicate AllGroupsResolve(db: Database, ws: string, wallId: Id, wall: Wall)
    requires wall.layout.Some?
  {
    var all := AllRoutes(db, ws, GroupRefs(wallId, wall.layout.value.groups, wall.revision));
    all.Ok? && Devices(all.value) == ToSet(MemberIds(wall.members))
  }

  lemma NamedApartResolves(db: Database, ws: string, wallId: Id, wall: Wall)
    requires wallId != "" && LoadWall(db, ws, wallId, wall.revision) == Ok(wall) && wall.layout.Some?
    requires CompleteLayout(wall.layout.value.groups, MemberIds(wall.members)) && "" !in MemberIds(wall.members)
    requires NamedApart(wall.layout.value.groups)
    ensures AllGroupsResolve(db, ws, wallId, wall)
  {
    hide LoadWall, RoutesOf, Devices, AllRoutes, FindGroup;
    var groups, members := wall.layout.value.groups, MemberIds(wall.members);
    var refs := GroupRefs(wallId, groups, wall.revision);
    forall k | 0 <= k < |groups|
      ensures RoutesOf(db, ws, refs[k]).Ok? && Devices(RoutesOf(db, ws, refs[k]).value) == ToSet(groups[k].members.value)
    {
      var f := FindGroupIsFirst(groups, k);
      assert f == k;
      GroupIsResolved(db, ws, wallId, wall, k, k);
    }
    CompleteLayoutPartitions(groups, members);
    hide CompleteLayout, NamedApart, GroupRefs;
    UnionOfGroups(db, ws, groups, refs);
    ResolutionIsUnion(db, ws, refs);
  }

  lemma UnionOfGroups(db: Database, ws: string, groups: seq<LayoutGroup>, refs: seq<Ref>)
    requires |groups| == |refs| && forall g :: g in groups ==> g.members.Some?
    requires forall k :: 0 <= k < |refs| ==>
      RoutesOf(db, ws, refs[k]).Ok? && Devices(RoutesOf(db, ws, refs[k]).value) == ToSet(groups[k].members.value)
    ensures AllSucceed(db, ws, refs) && Union(db, ws, refs) == ToSet(LayoutMembers(groups))
  {
    hide RoutesOf, Devices, LayoutMembers;
    forall ref | ref in refs ensures RoutesOf(db, ws, ref).Ok? {
      var k :| 0 <= k < |refs| && refs[k] == ref;
    }
    forall d | d in Union(db, ws, refs) ensures d in LayoutMembers(groups) {
      var ref :| ref in refs && d in Devices(RoutesOf(db, ws, ref).value);
      var k :| 0 <= k < |refs| && refs[k] == ref;
      assert groups[k] in groups && d in groups[k].members.value;
      GroupMembers(groups, d);
    }
    forall d | d in LayoutMembers(groups) ensures d in Union(db, ws, refs) {
      GroupMembers(groups, d);
      var g :| g in groups && g.members.Some? && d in g.members.value;
      var k :| 0 <= k < |groups| && groups[k] == g;
      assert refs[k] in refs && d in ToSet(groups[k].members.value);
    }
  }

  /** With one id for two groups the second is out of reach. */
  lemma SharedIdLosesMembers(db: Database, ws: string, wallId: Id, wall: Wall, i: nat, j: nat)
    requires wallId != "" && LoadWall(db, ws, wallId, wall.revision) == Ok(wall) && wall.layout.Some?
    requires CompleteLayout(wall.layout.value.groups, MemberIds(wall.members)) && "" !in MemberIds(wall.members)
    requires i < j < |wall.layout.value.groups| && wall.layout.value.groups[i].id == wall.layout.value.groups[j].id
    ensures !AllGroupsResolve(db, ws, wallId, wall)
  {
    hide LoadWall, RoutesOf, Devices, AllRoutes, FindGroup;
    var groups, members := wall.layout.value.groups, MemberIds(wall.members);
    var refs := GroupRefs(wallId, groups, wall.revision);
    assert groups[j] in groups;
    var d := groups[j].members.value[0];
    GroupMembers(groups, d);
    CompleteLayoutPartitions(groups, members);
    assert d in ToSet(members);
    ResolutionIsUnion(db, ws, refs);
    if AllSucceed(db, ws, refs) {
      forall ref | ref in refs ensures d !in Devices(RoutesOf(db, ws, ref).value) {
        var k :| 0 <= k < |refs| && refs[k] == ref;
        var f := FindGroupIsFirst(groups, k);
        GroupIsResolved(db, ws, wallId, wall, k, f);
        assert f != j && groups[f] in groups;
        if f < j {
          OtherGroupLacks(groups, f, j, d);
        } else {
          MembersApart(groups, j, f, d);
        }
      }
    }
  }

  lemma OtherGroupLacks(groups: seq<LayoutGroup>, a: nat, b: nat, d: Id)
    requires Sorting.Distinct(LayoutMembers(groups)) && a < b < |groups|
    requires groups[a].members.Some? && groups[b].members.Some? && d in groups[b].members.value
    ensures d !in groups[a].members.value
  {
    forall e | e in groups[a].members.value ensures e !in groups[b].members.value {
      MembersApart(groups, a, b, e);
    }
  }

  /** Naming every group of a wall reaches the devices that naming the wall reaches exactly
      when the groups have ids and no two share one. */
  lemma NamingAllGroupsIff(db: Database, ws: string, wallId: Id, wall: Wall)
    requires wallId != "" && LoadWall(db, ws, wallId, wall.revision) == Ok(wall) && wall.layout.Some?
    requires CompleteLayout(wall.layout.value.groups, MemberIds(wall.members)) && "" !in MemberIds(wall.members)
    requires RoutesOf(db, ws, WallRef(wallId, wall.revision)).Ok?
    ensures var groups := AllRoutes(db, ws, GroupRefs(wallId, wall.layout.value.groups, wall.revision));
      NamedApart(wall.layout.value.groups) <==>
        groups.Ok? && Devices(groups.value) == Devices(RoutesOf(db, ws, WallRef(wallId, wall.revision)).value)
  {
    hide LoadWall, RoutesOf, Devices, AllRoutes, CompleteLayout, ToSet, GroupRefs;
    WallDevices(db, ws, wallId, wall);
    var groups := wall.layout.value.groups;
    if NamedApart(groups) {
      NamedApartResolves(db, ws, wallId, wall);
    } else if exists i :: 0 <= i < |groups| && groups[i].id == "" {
      var i :| 0 <= i < |groups| && groups[i].id == "";
      NamelessFails(db, ws, wallId, wall, i);
    } else {
      var i, j :| 0 <= i < j < |groups| && groups[i].id == groups[j].id;
      SharedIdLosesMembers(db, ws, wallId, wall, i, j);
    }
  }

  lemma NamelessFails(db: Database, ws: string, wallId: Id, wall: Wall, i: nat)
    requires wallId != "" && LoadWall(db, ws, wallId, wall.revision) == Ok(wall) && wall.layout.Some?
    requires CompleteLayout(wall.layout.value.groups, MemberIds(wall.members)) && "" !in MemberIds(wall.members)
    requires i < |wall.layout.value.groups| && wall.layout.value.groups[i].id == ""
    ensures AllRoutes(db, ws, GroupRefs(wallId, wall.layout.value.groups, wall.revision)).Err?
  {
    hide LoadWall, RoutesOf, AllRoutes, CompleteLayout, FindGroup;
    var groups := wall.layout.value.groups;
    var refs := GroupRefs(wallId, groups, wall.revision);
    var f := FindGroupIsFirst(groups, i);
    GroupIsResolved(db, ws, wallId, wall, i, f);
    assert refs[i] in refs;
    ResolutionIsUnion(db, ws, refs);
  }
}
