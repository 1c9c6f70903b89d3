// Runs of the activation helper that recovery cannot make good: each starts from an
// empty host, every command succeeds, and the helper is killed at the wrong moment
// or in the wrong company.
module ActivationFailures {
  import opened Collections
  import opened Reachability
  import opened ActivationRecord
  import opened ActivationJournal

  const NOTHING: Host := Host(map[], map[], {}, map[])

  // The first record of an activation.
  ghost predicate First(r: Record) {
    r.rename.None? && r.routes == [] && (CloneName(r.iface) || ManagedName(r.iface))
  }

  // Records its first name and creates the interface, as every activation begins.
  method BeginAndDie(t: Token, first: Record, pton: AddressTest) returns (killed: Host)
    requires First(first)
    ensures killed == Host(map[first.iface := Some(t)], map[], {}, map[t := first])
    ensures CrashSafe(killed) && CleanFiles(killed)
  {
    var helper := new Helper(NOTHING, n => true, pton);
    helper.token, helper.memory := t, first;
    var saved := helper.SaveTracked();
    var created := helper.CreateInterface(first.iface);
    killed := helper.host;
  }

  // The next run of the helper, without a failure.
  method RecoverFrom(
    h: Host, pton: AddressTest, uid: nat, alive: nat -> bool, order: Host -> seq<Token>,
    listing: Host -> seq<string>)
    returns (after: Host)
    requires CrashSafe(h) && CleanFiles(h) && Enumerates(order, listing)
    ensures CrashSafe(after) && FullyRecovered(StaleFor(pton, uid, alive), h, after)
  {
    var later := new Helper(h, n => true, pton);
    var ok := later.Recover(uid, alive, order(h), listing);
    assert ok;
    after := later.host;
  }

  // Killed right after creation, an activation leaves its interface and its record
  // for good if it is a tunnel, still under the clone's name, or if its owner was
  // already orphaned when it began, so that the record names process 1.
  method AbandonedForGood(
    t: Token, first: Record, pton: AddressTest, alive: nat -> bool, order: Host -> seq<Token>,
    listing: Host -> seq<string>)
    returns (after: Host)
    requires First(first) && !alive(first.pid) && Enumerates(order, listing)
    requires CloneName(first.iface) || first.pid <= 1
    ensures t in after.files && first.iface in after.ifaces && after.ifaces[first.iface] == Some(t)
  {
    var killed := BeginAndDie(t, first, pton);
    after := RecoverFrom(killed, pton, first.uid, alive, order, listing);
    if CloneName(first.iface) {
      CloneIsNotManaged(first.iface);
    }
    RecoveryDecides(pton, first.uid, first.pid, alive, killed, after, t);
  }

  // ---------- A record that outgrows its file ----------

  lemma PinnedIsRecorded(routes: seq<Route>, endpoints: seq<string>, lookup: (Family, string) -> Lookup)
    requires NoRepeats(endpoints)
    requires forall e :: e in endpoints ==>
      lookup(V4, e).Via? && Route(V4, e, lookup(V4, e).gateway) in routes
    ensures |routes| >= |endpoints|
  {
    var pins := seq(|endpoints|, i requires 0 <= i < |endpoints| =>
      Route(V4, endpoints[i], lookup(V4, endpoints[i]).gateway));
    forall i, j | 0 <= i < j < |pins| ensures pins[i] != pins[j] {
      assert pins[i].destination == endpoints[i] && pins[j].destination == endpoints[j];
    }
    forall x | x in pins ensures x in RouteSet(routes) {
      var i :| 0 <= i < |pins| && pins[i] == x;
      assert endpoints[i] in endpoints;
    }
    NoRepeatsFits(pins, RouteSet(routes));
    RoutesNoMore(routes);
  }

  lemma {:induction false} RoutesNoMore(routes: seq<Route>)
    ensures |RouteSet(routes)| <= |routes|
  {
    if routes != [] {
      RoutesNoMore(routes[1..]);
      assert RouteSet(routes) == {routes[0]} + RouteSet(routes[1..]);
    }
  }

  ghost predicate Tunnelled(
    h: Host, t: Token, first: Record, endpoints: seq<string>, lookup: (Family, string) -> Lookup)
  {
    && t in h.files && h.files[t].uid == first.uid && h.files[t].pid == first.pid
    && h.files[t].iface in h.ifaces && h.ifaces[h.files[t].iface] == Some(t)
    && (forall x :: x in h.files[t].routes ==> x in h.routes && h.routes[x] == Some(t))
    && forall e :: e in endpoints ==>
      lookup(V4, e).Via? && Route(V4, e, lookup(V4, e).gateway) in h.files[t].routes
  }

  // A full tunnel is activated, on any host that leaves its names and routes free.
  method ActivateTunnel(
    base: Host, t: Token, first: Record, managed: seq<string>, endpoints: seq<string>,
    lookup: (Family, string) -> Lookup, pton: AddressTest)
    returns (active: Host)
    requires CrashSafe(base) && CleanFiles(base) && t !in base.files && PlainAddresses(pton)
    requires First(first) && CloneName(first.iface) && Unused(base, first.iface) && first.iface !in managed
    requires Drawn(managed) && forall n :: n in managed ==> Unused(base, n)
    requires AllRouted(pton, endpoints, lookup) && Unobstructed(base.routes, [], V4, endpoints, lookup)
    ensures CrashSafe(active) && CleanFiles(active) && Respects(base, active, t)
    ensures Tunnelled(active, t, first, endpoints, lookup)
  {
    var helper := new Helper(base, n => true, pton);
    var settings := Settings(true, false, true, true, endpoints, [], true);
    assert forall k :: 0 <= k < |managed| ==> managed[k] in managed;
    var ok, mark := helper.Activate(Wireguard, t, first, managed, settings, lookup);
    active := helper.host;
    assert ok && active == helper.history[|helper.history| - 1];
    StillClean(base, active, t, RouteSet(helper.memory.routes));
    Pinned(helper, settings, lookup);
  }

  lemma Pinned(helper: Helper, settings: Settings, lookup: (Family, string) -> Lookup)
    requires helper.SetUp(Wireguard, settings, lookup) && settings.peerRoutes && settings.full4
    requires forall e :: e in settings.endpoints4 ==> lookup(V4, e).Via?
    ensures forall e :: e in settings.endpoints4 ==> Route(V4, e, lookup(V4, e).gateway) in helper.memory.routes
  {
    assert helper.Pins(V4, settings.endpoints4, lookup);
    forall e | e in settings.endpoints4 ensures Route(V4, e, lookup(V4, e).gateway) in helper.memory.routes {
      assert helper.Pin(V4, e, lookup);
    }
  }

  // A tunnel whose peers resolve to more addresses than a state file has room for
  // is activated without a failure, and its record is never accepted again.
  method OutgrownForGood(
    t: Token, first: Record, managed: seq<string>, endpoints: seq<string>, lookup: (Family, string) -> Lookup,
    pton: AddressTest, alive: nat -> bool, order: Host -> seq<Token>, listing: Host -> seq<string>)
    returns (active: Host, after: Host)
    requires First(first) && CloneName(first.iface) && PlainAddresses(pton) && !alive(first.pid)
    requires Enumerates(order, listing) && Drawn(managed) && first.iface !in managed
    requires NoRepeats(endpoints) && |endpoints| > MAX_FILE && AllRouted(pton, endpoints, lookup)
    ensures Tunnelled(active, t, first, endpoints, lookup)
    ensures t in after.files && forall n :: n in active.ifaces && active.ifaces[n] == Some(t) ==> n in after.ifaces
  {
    active := ActivateTunnel(NOTHING, t, first, managed, endpoints, lookup, pton);
    PinnedIsRecorded(active.files[t].routes, endpoints, lookup);
    ManyRoutesOutgrow(active.files[t]);
    after := RecoverFrom(active, pton, first.uid, alive, order, listing);
    RecoveryDecides(pton, first.uid, first.pid, alive, active, after, t);
  }

  // The names drawn for the rename attempts.
  ghost predicate Drawn(managed: seq<string>) {
    |managed| == RENAME_ATTEMPTS && NoRepeats(managed)
    && forall n :: n in managed ==> "fwg" <= n && ManagedName(n)
  }

  // Every endpoint is a valid address behind a valid gateway.
  ghost predicate AllRouted(pton: AddressTest, endpoints: seq<string>, lookup: (Family, string) -> Lookup) {
    forall e :: e in endpoints ==>
      ValidAddress(pton, V4, e) && lookup(V4, e).Via? && ValidAddress(pton, V4, lookup(V4, e).gateway)
  }

  // ---------- A route that two activations record ----------

  // Begins a tunnel and is killed between saving the route to an endpoint and adding it.
  method AnnounceAndDie(t: Token, first: Record, managed: seq<string>, route: Route, pton: AddressTest)
    returns (killed: Host)
    requires First(first) && CloneName(first.iface) && Drawn(managed) && first.iface !in managed
    requires ValidRoute(pton, route) && PlainAddresses(pton)
    ensures CrashSafe(killed) && CleanFiles(killed) && killed.routes == map[] && killed.files.Keys == {t}
    ensures var saved := killed.files[t];
      && saved == Record(first.uid, first.pid, saved.iface, None, [route]) && saved.iface in managed
      && killed.ifaces.Keys <= {saved.iface}
  {
    var helper := new Helper(NOTHING, n => true, pton);
    helper.token, helper.memory := t, first;
    assert forall k :: 0 <= k < |managed| ==> managed[k] in managed;
    var begun, mark := helper.BeginWireguard(managed);
    var recorded := helper.RecordRoute(route);
    killed := helper.host;
    assert recorded && killed.files[t] == helper.memory;
    assert OtherFiles(killed, t) == map[] && OtherIfaces(killed, t) == map[];
    forall u | u in killed.files ensures u == t {
      assert u !in OtherFiles(killed, t);
    }
    forall n | n in killed.ifaces ensures Names(helper.memory, n) {
      assert n !in OtherIfaces(killed, t);
    }
    PresentableIsClean(pton, helper.memory);
  }

  // The first activation is killed between saving and adding its route to an endpoint;
  // the second sets up the same route and lives on. Recovering the first one takes
  // the route from the second.
  method LivingLosesRoute(
    dead: Token, first: Record, drawn: seq<string>, living: Token, second: Record, managed: seq<string>,
    endpoint: string, lookup: (Family, string) -> Lookup, pton: AddressTest, alive: nat -> bool,
    order: Host -> seq<Token>, listing: Host -> seq<string>)
    returns (active: Host, after: Host)
    requires dead != living && PlainAddresses(pton) && Enumerates(order, listing)
    requires First(first) && CloneName(first.iface) && Drawn(drawn) && first.iface !in drawn
    requires First(second) && CloneName(second.iface) && Drawn(managed) && second.iface !in managed
    requires forall n :: n in drawn ==> n !in managed && n != second.iface
    requires AllRouted(pton, [endpoint], lookup)
    requires ValidOwner(first.uid, first.pid) && !alive(first.pid) && alive(second.pid)
    requires lookup(V4, endpoint).Via? && forall n :: n in drawn ==>
      Small(Record(first.uid, first.pid, n, None, [Route(V4, endpoint, lookup(V4, endpoint).gateway)]))
    ensures Tunnelled(active, living, second, [endpoint], lookup)
    ensures living in after.files && after.files[living] == active.files[living]
    ensures after.files[living].iface in after.ifaces
    ensures Route(V4, endpoint, lookup(V4, endpoint).gateway) !in after.routes
  {
    var route := Route(V4, endpoint, lookup(V4, endpoint).gateway);
    assert endpoint in [endpoint];
    var killed := AnnounceAndDie(dead, first, drawn, route, pton);
    active := ActivateTunnel(killed, living, second, managed, [endpoint], lookup, pton);
    after := RecoverFrom(active, pton, first.uid, alive, order, listing);
    DeadStillClaims(killed, active, dead, living, pton, first, alive, route);
  }

  lemma DeadStillClaims(
    killed: Host, active: Host, dead: Token, living: Token, pton: AddressTest, first: Record, alive: nat -> bool,
    route: Route)
    requires dead != living && dead in killed.files && Respects(killed, active, living)
    requires Loadable(pton, killed.files[dead]) && killed.files[dead].uid == first.uid
    requires killed.files[dead].pid == first.pid && !alive(first.pid) && route in killed.files[dead].routes
    ensures ClaimsRoute(StaleFor(pton, first.uid, alive), active, route)
  {
    assert dead in OtherFiles(killed, living);
    assert OtherFiles(active, living)[dead] == killed.files[dead];
  }
}
