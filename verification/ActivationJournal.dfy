// Network activation as a write-ahead journal: every host change is preceded by
// a record that names it, so that a run killed at any point can be cleaned up.
module ActivationJournal {
  import opened Collections
  import opened ActivationRecord

  const RENAME_ATTEMPTS: nat := 16

  type Token = string

  // What survives the helper process. Interfaces and endpoint routes carry the
  // token of the activation that created them, or None when they are foreign.
  datatype Host = Host(ifaces: map<string, Option<Token>>, routes: map<Route, Option<Token>>,
                       dns: set<string>, files: map<Token, Record>)

  predicate Names(r: Record, n: string) { n == r.iface || r.rename == Some(n) }

  // Whatever an activation created is named in its saved record, and no record
  // names an interface that belongs to somebody else.
  ghost predicate CrashSafe(h: Host) {
    && (forall n :: n in h.ifaces && h.ifaces[n].Some? ==>
          h.ifaces[n].value in h.files && Names(h.files[h.ifaces[n].value], n))
    && (forall r :: r in h.routes && h.routes[r].Some? ==>
          h.routes[r].value in h.files && r in h.files[h.routes[r].value].routes)
    && (forall t, n :: t in h.files && n in h.ifaces && Names(h.files[t], n) ==> h.ifaces[n] == Some(t))
  }

  // Every state file is text that the writer made from its record without ambiguity.
  ghost predicate CleanFiles(h: Host) {
    forall t :: t in h.files ==> CleanRecord(h.files[t])
  }

  // Nothing on the host uses this name.
  ghost predicate Unused(h: Host, n: string) {
    n !in h.ifaces && forall t :: t in h.files ==> !Names(h.files[t], n)
  }

  ghost predicate OwnsNothing(h: Host, t: Token) {
    && (forall n :: n in h.ifaces ==> h.ifaces[n] != Some(t))
    && (forall r :: r in h.routes ==> h.routes[r] != Some(t))
  }

  // What does not belong to activation t: other interfaces and other records.
  ghost function OtherIfaces(h: Host, t: Token): map<string, Option<Token>> {
    map n | n in h.ifaces && h.ifaces[n] != Some(t) :: h.ifaces[n]
  }

  ghost function OtherFiles(h: Host, t: Token): map<Token, Record> {
    h.files - {t}
  }

  ghost function OtherRoutes(h: Host, t: Token): map<Route, Option<Token>> {
    map r | r in h.routes && h.routes[r] != Some(t) :: h.routes[r]
  }

  ghost function RouteSet(routes: seq<Route>): set<Route> {
    set r | r in routes
  }

  // What happened between base and h was the work of activation t alone.
  ghost predicate Respects(base: Host, h: Host, t: Token) {
    && OtherIfaces(h, t) == OtherIfaces(base, t) && OtherFiles(h, t) == OtherFiles(base, t)
    && OtherRoutes(h, t) == OtherRoutes(base, t)
  }

  // The same, except that named routes of others may have been deleted.
  ghost predicate RespectsBut(base: Host, h: Host, t: Token, named: set<Route>) {
    && OtherIfaces(h, t) == OtherIfaces(base, t) && OtherFiles(h, t) == OtherFiles(base, t)
    && OtherRoutes(h, t) - named == OtherRoutes(base, t) - named
  }

  // A record disappears only once everything it covered is gone.
  lemma MissingRecordOwnsNothing(h: Host, t: Token)
    requires CrashSafe(h) && t !in h.files
    ensures OwnsNothing(h, t)
  {
  }

  datatype Kind = Wireguard | Dummy
  // What the connection settings ask of the host once the interface exists.
  datatype Settings = Settings(full4: bool, full6: bool, peerRoutes: bool, hasEndpoints: bool,
                               endpoints4: seq<string>, endpoints6: seq<string>, hasDns: bool)
  // The answer of a route lookup for an endpoint.
  datatype Lookup = Unroutable | Pinned | Via(gateway: string)

  // Nothing is in the way of pinning an endpoint: it is pinned, or its route is not
  // in the table unless this activation recorded it.
  ghost predicate Attainable(
    routes: map<Route, Option<Token>>, recorded: seq<Route>, family: Family, endpoint: string,
    lookup: (Family, string) -> Lookup)
  {
    match lookup(family, endpoint)
    case Unroutable => false
    case Pinned => true
    case Via(gateway) =>
      var x := Route(family, endpoint, gateway);
      x !in routes || x in recorded
  }

  ghost predicate Unobstructed(
    routes: map<Route, Option<Token>>, recorded: seq<Route>, family: Family, endpoints: seq<string>,
    lookup: (Family, string) -> Lookup)
  {
    forall e :: e in endpoints ==> Attainable(routes, recorded, family, e, lookup)
  }

  // The settings can be met: the routes they call for are possible, and a full
  // tunnel has endpoints and name servers.
  ghost predicate CanBeMet(
    routes: map<Route, Option<Token>>, recorded: seq<Route>, kind: Kind, settings: Settings,
    lookup: (Family, string) -> Lookup)
  {
    kind == Wireguard && (settings.full4 || settings.full6) ==>
      && settings.hasDns && (settings.peerRoutes ==> settings.hasEndpoints)
      && (settings.peerRoutes && settings.full4 ==>
            Unobstructed(routes, recorded, V4, settings.endpoints4, lookup))
      && (settings.peerRoutes && settings.full6 ==>
            Unobstructed(routes, recorded, V6, settings.endpoints6, lookup))
  }

  // Further work of the activation takes no attainable endpoint out of reach.
  lemma StillAttainable(
    before: map<Route, Option<Token>>, recorded: seq<Route>, after: map<Route, Option<Token>>, more: seq<Route>,
    family: Family, lookup: (Family, string) -> Lookup)
    requires recorded <= more && forall x :: x in after ==> x in before || x in more
    ensures forall e :: Attainable(before, recorded, family, e, lookup) ==>
      Attainable(after, more, family, e, lookup)
  {
  }

  class Helper {
    const script: nat -> bool        // whether the n-th external command succeeds
    const pton: AddressTest
    var step: nat
    var host: Host
    var history: seq<Host>           // the host after every change, in order

    // The activation held in memory.
    var token: Token
    var memory: Record
    var dnsInstalled: bool

    ghost predicate Safe()
      reads this
    {
      && CrashSafe(host) && history != [] && history[|history| - 1] == host
      && forall h :: h in history ==> CrashSafe(h)
    }

    constructor (h: Host, script: nat -> bool, pton: AddressTest)
      requires CrashSafe(h)
      ensures Safe() && host == h && history == [h]
      ensures this.script == script && this.pton == pton
    {
      host, history, step := h, [h], 0;
      this.script, this.pton := script, pton;
      token, memory, dnsInstalled := "", Record(0, 0, "", None, []), false;
    }

    // In every host since then, other activations' records and everyone else's
    // interfaces and routes are left alone.
    twostate predicate OthersKept()
      reads this
    {
      && Respects(old(host), host, token)
      && forall i :: |old(history)| <= i < |history| ==> Respects(old(host), history[i], token)
    }

    twostate predicate OthersKeptBut(named: set<Route>)
      reads this
    {
      && RespectsBut(old(host), host, token, named)
      && forall i :: |old(history)| <= i < |history| ==> RespectsBut(old(host), history[i], token, named)
    }

    ghost predicate NothingFails() {
      forall n :: script(n)
    }

    // No other activation's record mentions this name.
    ghost predicate OursAlone(n: string)
      reads this
    {
      forall t :: t in OtherFiles(host, token) ==> !Names(OtherFiles(host, token)[t], n)
    }

    // ---------- External commands: a failed one changes nothing ----------

    method Command() returns (ok: bool)
      modifies this`step
      ensures ok == script(old(step)) && step == old(step) + 1
    {
      ok := script(step);
      step := step + 1;
    }

    method Commit(h: Host)
      modifies this`host, this`history
      ensures host == h && history == old(history) + [h]
    {
      host := h;
      history := history + [h];
    }

    method SaveState() returns (ok: bool)
      modifies this`step, this`host, this`history
      ensures step == old(step) + 1 && ok == script(old(step))
      ensures host == if ok then old(host).(files := old(host).files[token := memory]) else old(host)
      ensures history == if ok then old(history) + [host] else old(history)
      ensures OthersKept()
    {
      ok := Command();
      if ok {
        Commit(host.(files := host.files[token := memory]));
      }
    }

    method CreateInterface(n: string) returns (ok: bool)
      modifies this`step, this`host, this`history
      ensures step == old(step) + 1
      ensures ok == (n !in old(host).ifaces && script(old(step)))
      ensures host == if ok then old(host).(ifaces := old(host).ifaces[n := Some(token)]) else old(host)
      ensures history == if ok then old(history) + [host] else old(history)
      ensures OthersKept()
      ensures old(Safe()) && token in host.files && Names(host.files[token], n) && OursAlone(n) ==> Safe()
    {
      ok := Command();
      ok := ok && n !in host.ifaces;
      if ok {
        Commit(host.(ifaces := host.ifaces[n := Some(token)]));
        assert forall t :: t in host.files && t != token ==> t in OtherFiles(host, token);
      }
    }

    method RenameInterface(from: string, to: string) returns (ok: bool)
      modifies this`step, this`host, this`history
      ensures step == old(step) + 1
      ensures ok == (from in old(host).ifaces && to !in old(host).ifaces && script(old(step)))
      ensures host == if ok then old(host).(ifaces := (old(host).ifaces - {from})[to := old(host).ifaces[from]])
                      else old(host)
      ensures history == if ok then old(history) + [host] else old(history)
      ensures from in old(host).ifaces && old(host).ifaces[from] == Some(token) ==> OthersKept()
      ensures (&& old(Safe()) && token in host.files && Names(host.files[token], to) && OursAlone(to)
               && from in old(host).ifaces && old(host).ifaces[from] == Some(token)) ==> Safe()
    {
      ok := Command();
      ok := ok && from in host.ifaces && to !in host.ifaces;
      if ok {
        Commit(host.(ifaces := (host.ifaces - {from})[to := host.ifaces[from]]));
        assert forall t :: t in host.files && t != token ==> t in OtherFiles(host, token);
      }
    }

    method DestroyInterface(n: string) returns (ok: bool)
      modifies this`step, this`host, this`history
      ensures step == old(step) + 1
      ensures ok == (n in old(host).ifaces && script(old(step)))
      ensures host == if ok then old(host).(ifaces := old(host).ifaces - {n}) else old(host)
      ensures history == if ok then old(history) + [host] else old(history)
      ensures (n in old(host).ifaces ==> old(host).ifaces[n] == Some(token)) ==> OthersKept()
      ensures old(Safe()) ==> Safe()
    {
      ok := Command();
      ok := ok && n in host.ifaces;
      if ok {
        Commit(host.(ifaces := host.ifaces - {n}));
      }
    }

    method AddRoute(r: Route) returns (ok: bool)
      modifies this`step, this`host, this`history
      ensures step == old(step) + 1
      ensures ok == (r !in old(host).routes && script(old(step)))
      ensures host == if ok then old(host).(routes := old(host).routes[r := Some(token)]) else old(host)
      ensures history == if ok then old(history) + [host] else old(history)
      ensures OthersKept()
      ensures old(Safe()) && token in host.files && r in host.files[token].routes ==> Safe()
    {
      ok := Command();
      ok := ok && r !in host.routes;
      if ok {
        Commit(host.(routes := host.routes[r := Some(token)]));
      }
    }

    // A route that is not in the table counts as deleted.
    method DeleteRoute(r: Route) returns (ok: bool)
      modifies this`step, this`host, this`history
      ensures step == old(step) + 1
      ensures ok == (r !in old(host).routes || script(old(step)))
      ensures host == if ok then old(host).(routes := old(host).routes - {r}) else old(host)
      ensures history == if ok then old(history) + [host] else old(history)
      ensures OthersKeptBut({r})
      ensures old(Safe()) ==> Safe()
    {
      ok := Command();
      ok := ok || r !in host.routes;
      if ok {
        Commit(host.(routes := host.routes - {r}));
      }
    }

    method AddDns(n: string) returns (ok: bool)
      modifies this`step, this`host, this`history
      ensures step == old(step) + 1 && ok == script(old(step))
      ensures host == if ok then old(host).(dns := old(host).dns + {n}) else old(host)
      ensures history == if ok then old(history) + [host] else old(history)
      ensures OthersKept()
      ensures old(Safe()) ==> Safe()
    {
      ok := Command();
      if ok {
        Commit(host.(dns := host.dns + {n}));
      }
    }

    method RemoveDns(n: string) returns (ok: bool)
      modifies this`step, this`host, this`history
      ensures step == old(step) + 1 && ok == script(old(step))
      ensures host == if ok then old(host).(dns := old(host).dns - {n}) else old(host)
      ensures history == if ok then old(history) + [host] else old(history)
      ensures OthersKept()
      ensures old(Safe()) ==> Safe()
    {
      ok := Command();
      if ok {
        Commit(host.(dns := host.dns - {n}));
      }
    }

    method RemoveStateFile(t: Token) returns (ok: bool)
      modifies this`step, this`host, this`history
      ensures step == old(step) + 1 && ok == script(old(step))
      ensures host == if ok then old(host).(files := old(host).files - {t}) else old(host)
      ensures history == if ok then old(history) + [host] else old(history)
      ensures t == token ==> OthersKept()
      ensures old(Safe()) && OwnsNothing(host, t) ==> Safe()
    {
      ok := Command();
      if ok {
        Commit(host.(files := host.files - {t}));
      }
    }

    // ---------- Activation ----------

    // Memory names everything this activation created, and nobody else's interface.
    ghost predicate Accounted()
      reads this
    {
      && Safe()
      && (forall n :: n in host.ifaces && host.ifaces[n] == Some(token) ==> Names(memory, n))
      && (forall n :: n in host.ifaces && Names(memory, n) ==> host.ifaces[n] == Some(token))
      && (forall r :: r in host.routes && host.routes[r] == Some(token) ==> r in memory.routes)
    }

    // Moreover the saved record lists the same routes.
    ghost predicate Tracking()
      reads this
    {
      Accounted() && token in host.files && host.files[token].routes == memory.routes
    }

    // A record of this activation whose names and routes a later run accepts.
    ghost predicate Ours(r: Record)
      reads this
    {
      Presentable(pton, r) && r.uid == memory.uid && r.pid == memory.pid
    }

    // So is every record from position mark on.
    ghost predicate Accepted(mark: nat)
      reads this
    {
      forall i :: mark <= i < |history| && token in history[i].files ==> Ours(history[i].files[token])
    }

    // Since position from only resources went away; no record was touched.
    twostate predicate OnlyShrank()
      reads this
    {
      && old(history) <= history && old(step) <= step
      && (forall i :: |old(history)| <= i < |history| ==> history[i].files == old(host.files))
      && host.files == old(host.files)
      && host.ifaces.Keys <= old(host.ifaces).Keys && host.routes.Keys <= old(host.routes).Keys
      && (forall n :: n in host.ifaces ==> host.ifaces[n] == old(host.ifaces)[n])
      && (forall r :: r in host.routes ==> host.routes[r] == old(host.routes)[r])
    }

    method Destroy(n: string) returns (ok: bool)
      requires Safe()
      modifies this`step, this`host, this`history
      ensures Safe() && OnlyShrank() && host == old(host).(ifaces := host.ifaces)
      ensures (n in old(host).ifaces ==> old(host).ifaces[n] == Some(token)) ==> OthersKept()
      ensures host.ifaces == if ok then old(host).ifaces - {n} else old(host).ifaces
      ensures n in old(host).ifaces && script(old(step)) ==> ok
      ensures step == old(step) + 1
    {
      ok := DestroyInterface(n);
    }

    method RemoveRoutes(routes: seq<Route>) returns (ok: bool)
      requires Safe()
      modifies this`step, this`host, this`history
      ensures Safe() && OnlyShrank() && OthersKeptBut(RouteSet(routes)) && host == old(host).(routes := host.routes)
      ensures ok ==> forall r :: r in routes ==> r !in host.routes
      ensures (forall i :: old(step) <= i < step ==> script(i)) ==> ok
    {
      ok := true;
      var i := |routes|;
      while i > 0
        invariant 0 <= i <= |routes|
        invariant Safe() && OnlyShrank() && OthersKeptBut(RouteSet(routes)) && host == old(host).(routes := host.routes)
        invariant ok ==> forall k :: i <= k < |routes| ==> routes[k] !in host.routes
        invariant (forall k :: old(step) <= k < step ==> script(k)) ==> ok
      {
        var deleted := DeleteRoute(routes[i - 1]);
        if !deleted {
          ok := false;
        }
        i := i - 1;
      }
    }

    method DestroyNames(r: Record) returns (ok: bool)
      requires Safe()
      modifies this`step, this`host, this`history
      ensures Safe() && OnlyShrank() && host == old(host).(ifaces := host.ifaces)
      ensures (forall n :: n in old(host).ifaces && Names(r, n) ==> old(host).ifaces[n] == Some(token)) ==> OthersKept()
      ensures ok ==> forall n :: n in host.ifaces ==> !Names(r, n)
    {
      ok := Destroy(r.iface);
      if r.rename.Some? {
        var destroyed := Destroy(r.rename.value);
        ok := ok && destroyed;
      }
    }

    method Release(kind: Kind) returns (ok: bool)
      requires Accounted()
      modifies this`step, this`host, this`history
      ensures Safe() && OnlyShrank() && OthersKeptBut(RouteSet(memory.routes))
      ensures ok ==> OwnsNothing(host, token)
    {
      ok := DestroyNames(memory);
      var removed := RemoveRoutes(memory.routes);
      ok := ok && removed;
      if kind == Wireguard && dnsInstalled {
        removed := RemoveDns(memory.iface);
        ok := ok && removed;
      }
    }

    // Undo a failed activation; the record goes only when everything else is gone.
    method CleanupActivation(kind: Kind) returns (ok: bool)
      requires Accounted()
      modifies this`step, this`host, this`history
      ensures Safe() && OthersKeptBut(RouteSet(memory.routes)) && old(history) <= history
      ensures ok ==> token !in host.files && OwnsNothing(host, token)
      ensures forall i :: |old(history)| <= i < |history| && token in history[i].files ==>
                token in old(host).files && history[i].files[token] == old(host).files[token]
    {
      ok := Release(kind);
      if ok {
        ok := RemoveStateFile(token);
      }
    }

    // The names drawn for the rename attempts are managed names that nothing uses.
    ghost predicate FreshNames(managed: seq<string>)
      reads this
    {
      && |managed| == RENAME_ATTEMPTS
      && (forall k :: 0 <= k < |managed| ==> "fwg" <= managed[k] && ManagedName(managed[k]) && Unused(host, managed[k]))
      && (forall j, k :: 0 <= j < k < |managed| ==> managed[j] != managed[k])
    }

    // Before position mark the disk holds the bare first record; from mark on, an accepted one.
    ghost predicate Window(start: nat, mark: nat, bare: Record)
      reads this
    {
      && start <= mark <= |history|
      && (forall i :: start <= i < mark && token in history[i].files ==> history[i].files[token] == bare)
      && Accepted(mark)
    }

    // At every point since start, the record is one that recovery loads if and only
    // if the point is not before mark, the file is small enough and the owner valid.
    ghost predicate Decided(start: nat, mark: nat, first: Record)
      reads this
    {
      forall i :: start <= i < |history| && token in history[i].files ==>
        var saved := history[i].files[token];
        && saved.uid == first.uid && saved.pid == first.pid
        && (Loadable(pton, saved) <==> i >= mark && Small(saved) && ValidOwner(first.uid, first.pid))
        && (CloneName(first.iface) ==> (i >= mark <==> saved.iface != first.iface))
        && (PlainAddresses(pton) ==> CleanRecord(saved))
    }

    lemma WindowDecides(start: nat, mark: nat, first: Record)
      requires Window(start, mark, first) && (CloneName(first.iface) || mark == start)
      requires memory.uid == first.uid && memory.pid == first.pid
      requires first.rename.None? && first.routes == []
      ensures Decided(start, mark, first)
    {
      if CloneName(first.iface) {
        CloneIsNotManaged(first.iface);
      }
      if PlainAddresses(pton) {
        forall i | mark <= i < |history| && token in history[i].files ensures CleanRecord(history[i].files[token]) {
          PresentableIsClean(pton, history[i].files[token]);
        }
      }
    }

    method SaveTracked() returns (ok: bool)
      requires Accounted()
      modifies this`step, this`host, this`history
      ensures Accounted() && OthersKept() && (ok ==> Tracking())
      ensures host == if ok then old(host).(files := old(host).files[token := memory]) else old(host)
      ensures history == if ok then old(history) + [host] else old(history)
      ensures NothingFails() ==> ok
    {
      ok := SaveState();
    }

    // The interface has its final name and the record on disk is the one in memory.
    ghost predicate Configuring()
      reads this
    {
      Tracking() && host.files[token] == memory && Presentable(pton, memory)
    }

    // Everything written since is a record of ours that a later run accepts.
    twostate predicate Grown()
      reads this
    {
      && old(history) <= history && memory.uid == old(memory).uid && memory.pid == old(memory).pid
      && forall i :: |old(history)| <= i < |history| ==>
           token in history[i].files && Ours(history[i].files[token])
    }

    // The cloned interface exists under its cloner name only.
    ghost predicate Cloned(clone: string)
      reads this
    {
      && Tracking() && CloneName(clone) && Names(memory, clone)
      && memory.routes == []
      && clone in host.ifaces && host.ifaces[clone] == Some(token)
      && (forall n :: n in host.ifaces && host.ifaces[n] == Some(token) ==> n == clone)
    }

    // The record names both names, so the rename itself is safe; then the old name is dropped.
    method PerformRename(clone: string) returns (renamed: bool, ok: bool)
      requires Cloned(clone) && Configuring() && memory.rename == Some(clone)
      requires memory.iface !in host.ifaces && OursAlone(memory.iface)
      modifies this`step, this`host, this`history, this`memory
      ensures Tracking() && OthersKept() && Grown()
      ensures memory.(rename := None) == old(memory).(rename := None)
      ensures !renamed ==> Cloned(clone) && host.ifaces == old(host).ifaces
      ensures renamed && ok ==> host.files[token] == memory && memory.iface in host.ifaces
      ensures host.routes == old(host).routes
      ensures renamed ==> memory.rename.None?
      ensures NothingFails() ==> renamed && ok
    {
      ok := false;
      renamed := RenameInterface(clone, memory.iface);
      if renamed {
        memory := memory.(rename := None);
        ok := SaveTracked();
      }
    }

    // Save both names, the clone's and the one it is to get.
    method AnnounceRename(clone: string, name: string) returns (saved: bool)
      requires Cloned(clone) && ManagedName(name) && name !in host.ifaces && OursAlone(name)
      modifies this`step, this`host, this`history, this`memory
      ensures Cloned(clone) && OthersKept() && Grown()
      ensures memory == old(memory).(iface := name, rename := Some(clone))
      ensures host.ifaces == old(host).ifaces && host.routes == old(host).routes
      ensures if saved then Configuring() else host == old(host) && history == old(history)
      ensures NothingFails() ==> saved
    {
      memory := memory.(rename := Some(clone), iface := name);
      saved := SaveTracked();
    }

    method AttemptRename(clone: string, name: string) returns (saved: bool, renamed: bool, ok: bool)
      requires Cloned(clone) && ManagedName(name) && name !in host.ifaces && OursAlone(name)
      modifies this`step, this`host, this`history, this`memory
      ensures Tracking() && OthersKept() && Grown()
      ensures memory.(iface := "", rename := None) == old(memory).(iface := "", rename := None)
      ensures !saved ==> host == old(host) && history == old(history)
      ensures saved && !renamed ==> Cloned(clone) && host.ifaces == old(host).ifaces
      ensures saved && renamed && ok ==> host.files[token] == memory && memory.iface in host.ifaces
      ensures saved && renamed ==> memory.iface == name && memory.rename.None?
      ensures host.routes == old(host).routes
      ensures NothingFails() ==> saved && renamed && ok
    {
      renamed, ok := false, false;
      saved := AnnounceRename(clone, name);
      if saved {
        renamed, ok := PerformRename(clone);
      }
    }

    // Try one managed name after the other until the rename succeeds.
    method RenameClone(clone: string, managed: seq<string>) returns (ok: bool)
      requires Cloned(clone) && FreshNames(managed)
      modifies this`step, this`host, this`history, this`memory
      ensures Tracking() && OthersKept() && Grown()
      ensures memory.(iface := "", rename := None) == old(memory).(iface := "", rename := None)
      ensures ok ==> Configuring() && memory.iface in host.ifaces
      ensures ok ==> memory.iface in managed && memory.rename.None?
      ensures host.routes == old(host).routes
      ensures NothingFails() ==> ok
    {
      for attempt := 0 to RENAME_ATTEMPTS
        invariant Cloned(clone) && OthersKept() && Grown() && host.routes == old(host).routes
        invariant NothingFails() ==> attempt == 0
        invariant memory.(iface := "", rename := None) == old(memory).(iface := "", rename := None)
        invariant forall k :: attempt <= k < |managed| ==> managed[k] !in host.ifaces && OursAlone(managed[k])
      {
        var saved, renamed, done := AttemptRename(clone, managed[attempt]);
        if !saved {
          return false;
        }
        if renamed {
          return done;
        }
      }
      ok := false;
    }

    method CreateWireguardInterface(managed: seq<string>) returns (ok: bool, ghost mark: nat)
      requires Tracking() && FreshNames(managed) && memory.rename.None? && memory.routes == []
      requires host.files[token] == memory && memory.iface !in host.ifaces && memory.iface !in managed
      requires OursAlone(memory.iface)
      modifies this`step, this`host, this`history, this`memory
      ensures Tracking() && OthersKept() && old(history) <= history
      ensures Window(|old(history)|, mark, old(memory))
      ensures memory.(iface := "", rename := None) == old(memory).(iface := "")
      ensures ok ==> Configuring() && memory.iface in host.ifaces
      ensures ok ==> memory.iface in managed && memory.rename.None?
      ensures host.routes == old(host).routes
      ensures NothingFails() && CloneName(old(memory).iface) ==> ok
    {
      mark := |history|;
      if !CloneName(memory.iface) {
        return false, mark;
      }
      var clone := memory.iface;
      ok := CreateInterface(clone);
      mark := |history|;
      if ok {
        ok := RenameClone(clone, managed);
      }
    }

    // Every recorded route is ours in the table, through the gateway that was looked up.
    ghost predicate Installed(lookup: (Family, string) -> Lookup)
      reads this
    {
      forall x :: x in memory.routes ==>
        x in host.routes && host.routes[x] == Some(token) && lookup(x.family, x.destination) == Via(x.gateway)
    }

    // Each endpoint has a host route of its own, either found there or recorded.
    ghost predicate Pins(family: Family, endpoints: seq<string>, lookup: (Family, string) -> Lookup)
      reads this
    {
      forall e :: e in endpoints ==> Pin(family, e, lookup)
    }

    ghost predicate Pin(family: Family, endpoint: string, lookup: (Family, string) -> Lookup)
      reads this
    {
      var found := lookup(family, endpoint);
      found.Pinned? || (found.Via? && Route(family, endpoint, found.gateway) in memory.routes)
    }

    ghost predicate AllAttainable(family: Family, endpoints: seq<string>, lookup: (Family, string) -> Lookup)
      reads this
    {
      Unobstructed(host.routes, memory.routes, family, endpoints, lookup)
    }

    ghost predicate Feasible(kind: Kind, settings: Settings, lookup: (Family, string) -> Lookup)
      reads this
    {
      CanBeMet(host.routes, memory.routes, kind, settings, lookup)
    }

    // Configuration adds routes and leaves the interfaces alone.
    twostate predicate Extended()
      reads this
    {
      host.ifaces == old(host).ifaces && old(memory).routes <= memory.routes
      && memory == old(memory).(routes := memory.routes)
      && (forall x :: x in host.routes ==> x in old(host).routes || x in memory.routes)
    }

    // The save step: the route enters memory and the record together, or neither.
    method RecordRoute(route: Route) returns (ok: bool)
      requires Configuring() && ValidRoute(pton, route)
      modifies this`step, this`host, this`history, this`memory
      ensures Configuring() && OthersKept() && Grown()
      ensures host.ifaces == old(host).ifaces && host.routes == old(host).routes
      ensures memory == old(memory).(routes := if ok then old(memory).routes + [route] else old(memory).routes)
      ensures NothingFails() ==> ok
    {
      memory := memory.(routes := memory.routes + [route]);
      ok := SaveTracked();
      if !ok {
        memory := memory.(routes := memory.routes[..|memory.routes| - 1]);
        assert memory == old(memory);
      }
    }

    // The add step: only a recorded route enters the table.
    method AddRecorded(route: Route) returns (ok: bool)
      requires Configuring() && route in memory.routes
      modifies this`step, this`host, this`history
      ensures Configuring() && OthersKept() && Grown()
      ensures host.ifaces == old(host).ifaces
      ensures host.routes == if ok then old(host).routes[route := Some(token)] else old(host).routes
      ensures NothingFails() && route !in old(host).routes ==> ok
    {
      ok := AddRoute(route);
    }

    // The route is in the saved record before it is in the table.
    method InstallRoute(route: Route, ghost lookup: (Family, string) -> Lookup) returns (ok: bool)
      requires Configuring() && ValidRoute(pton, route)
      modifies this`step, this`host, this`history, this`memory
      ensures Configuring() && OthersKept() && Grown() && Extended()
      ensures ok && old(Installed(lookup)) && lookup(route.family, route.destination) == Via(route.gateway) ==>
        Installed(lookup)
      ensures ok ==> memory.routes == old(memory).routes + [route]
      ensures NothingFails() && route !in old(host).routes ==> ok
    {
      ok := RecordRoute(route);
      if ok {
        ok := AddRecorded(route);
      }
    }

    // Pin one endpoint unless it is already pinned.
    method AddEndpointRoute(family: Family, endpoint: string, lookup: (Family, string) -> Lookup)
      returns (ok: bool)
      requires Configuring() && ValidAddress(pton, family, endpoint)
      requires lookup(family, endpoint).Via? ==> ValidAddress(pton, family, lookup(family, endpoint).gateway)
      modifies this`step, this`host, this`history, this`memory
      ensures Configuring() && OthersKept() && Grown() && Extended()
      ensures ok && old(Installed(lookup)) ==> Installed(lookup)
      ensures NothingFails() && Attainable(old(host).routes, old(memory).routes, family, endpoint, lookup) ==> ok
      ensures ok && old(Installed(lookup)) ==> Pin(family, endpoint, lookup)
    {
      for index := 0 to |memory.routes|
        invariant host == old(host) && history == old(history) && memory == old(memory)
        invariant forall k :: 0 <= k < index ==>
          !(memory.routes[k].family == family && memory.routes[k].destination == endpoint)
      {
        if memory.routes[index].family == family && memory.routes[index].destination == endpoint {
          return true;
        }
      }
      var answered := Command();
      if !answered || lookup(family, endpoint).Unroutable? {
        return false;
      }
      if lookup(family, endpoint).Pinned? {
        return true;
      }
      var route := Route(family, endpoint, lookup(family, endpoint).gateway);
      ok := InstallRoute(route, lookup);
    }

    ghost predicate PinnedUpTo(family: Family, endpoints: seq<string>, lookup: (Family, string) -> Lookup, n: nat)
      reads this
    {
      n <= |endpoints| && forall j :: 0 <= j < n ==> Pin(family, endpoints[j], lookup)
    }

    method PinNext(family: Family, endpoints: seq<string>, lookup: (Family, string) -> Lookup, n: nat)
      returns (ok: bool)
      requires Configuring() && Resolves(family, endpoints, lookup)
      requires n < |endpoints| && PinnedUpTo(family, endpoints, lookup, n) && Installed(lookup)
      modifies this`step, this`host, this`history, this`memory
      ensures Configuring() && OthersKept() && Grown() && Extended()
      ensures ok ==> Installed(lookup) && PinnedUpTo(family, endpoints, lookup, n + 1)
      ensures NothingFails() && old(AllAttainable(family, endpoints, lookup)) ==> ok
      ensures old(AllAttainable(family, endpoints, lookup)) ==> AllAttainable(family, endpoints, lookup)
    {
      assert endpoints[n] in endpoints;
      ok := AddEndpointRoute(family, endpoints[n], lookup);
      forall j | 0 <= j < n ensures Pin(family, endpoints[j], lookup) {
        assert old(Pin(family, endpoints[j], lookup));
      }
      StillAttainable(old(host).routes, old(memory).routes, host.routes, memory.routes, family, lookup);
    }

    method PinEndpoints(family: Family, endpoints: seq<string>, lookup: (Family, string) -> Lookup)
      returns (ok: bool)
      requires Configuring() && Resolves(family, endpoints, lookup) && Installed(lookup)
      modifies this`step, this`host, this`history, this`memory
      ensures Configuring() && OthersKept() && Grown() && Extended()
      ensures ok ==> Installed(lookup) && Pins(family, endpoints, lookup)
      ensures NothingFails() && old(AllAttainable(family, endpoints, lookup)) ==> ok
    {
      for index := 0 to |endpoints|
        invariant Configuring() && OthersKept() && Grown() && Extended()
        invariant Installed(lookup) && PinnedUpTo(family, endpoints, lookup, index)
        invariant old(AllAttainable(family, endpoints, lookup)) ==> AllAttainable(family, endpoints, lookup)
      {
        ok := PinNext(family, endpoints, lookup, index);
        if !ok {
          return;
        }
      }
      ok := true;
    }

    ghost predicate Resolves(family: Family, endpoints: seq<string>, lookup: (Family, string) -> Lookup)
      reads this
    {
      forall e :: e in endpoints ==>
        && ValidAddress(pton, family, e)
        && (lookup(family, e).Via? ==> ValidAddress(pton, family, lookup(family, e).gateway))
    }

    // Routes through the interface itself go away with it, so only endpoint pins are journalled.
    method ConfigureFamily(family: Family, endpoints: seq<string>, lookup: (Family, string) -> Lookup)
      returns (ok: bool)
      requires Configuring() && Resolves(family, endpoints, lookup) && Installed(lookup)
      modifies this`step, this`host, this`history, this`memory
      ensures Configuring() && OthersKept() && Grown() && Extended()
      ensures ok ==> Installed(lookup)
      ensures ok ==> Pins(family, endpoints, lookup)
      ensures NothingFails() && old(AllAttainable(family, endpoints, lookup)) ==> ok
    {
      ok := PinEndpoints(family, endpoints, lookup);
      if ok {
        ok := Command();
      }
      if ok {
        ok := Command();
      }
    }

    ghost predicate Tunnelled(settings: Settings, lookup: (Family, string) -> Lookup)
      reads this
    {
      && (settings.peerRoutes && settings.full4 ==> Pins(V4, settings.endpoints4, lookup))
      && (settings.peerRoutes && settings.full6 ==> Pins(V6, settings.endpoints6, lookup))
    }

    // What a successful activation has set up.
    ghost predicate SetUp(kind: Kind, settings: Settings, lookup: (Family, string) -> Lookup)
      reads this
    {
      && memory.iface in host.ifaces && Installed(lookup)
      && (kind == Wireguard ==> Tunnelled(settings, lookup))
      && (kind == Wireguard && (settings.full4 || settings.full6) ==> memory.iface in host.dns)
    }

    method ConfigureTunnel(settings: Settings, lookup: (Family, string) -> Lookup) returns (ok: bool)
      requires Configuring() && Resolves(V4, settings.endpoints4, lookup) && Resolves(V6, settings.endpoints6, lookup)
      requires Installed(lookup)
      modifies this`step, this`host, this`history, this`memory
      ensures Configuring() && OthersKept() && Grown() && Extended()
      ensures ok ==> Installed(lookup)
      ensures ok ==> Tunnelled(settings, lookup)
      ensures NothingFails() && old(Feasible(Wireguard, settings, lookup)) ==> ok
    {
      ok := true;
      if !settings.peerRoutes || (!settings.full4 && !settings.full6) {
        return;
      }
      if !settings.hasEndpoints {
        return false;
      }
      if settings.full4 {
        ok := ConfigureFamily(V4, settings.endpoints4, lookup);
      }
      if ok && settings.full6 {
        StillAttainable(old(host).routes, old(memory).routes, host.routes, memory.routes, V6, lookup);
        ok := ConfigureFamily(V6, settings.endpoints6, lookup);
      }
    }

    // The resolver entry of a full tunnel.
    method ConfigureDns(settings: Settings) returns (ok: bool)
      requires Configuring()
      modifies this`step, this`host, this`history, this`dnsInstalled
      ensures Configuring() && OthersKept() && Grown()
      ensures host.ifaces == old(host).ifaces && host.routes == old(host).routes
      ensures ok && (settings.full4 || settings.full6) ==> memory.iface in host.dns
      ensures NothingFails() && (settings.full4 || settings.full6 ==> settings.hasDns) ==> ok
    {
      ok := true;
      if !settings.full4 && !settings.full6 {
        return;
      }
      if !settings.hasDns {
        return false;
      }
      ok := AddDns(memory.iface);
      dnsInstalled := ok;
    }

    method ConfigureWireguard(settings: Settings, lookup: (Family, string) -> Lookup) returns (ok: bool)
      requires Configuring() && Resolves(V4, settings.endpoints4, lookup) && Resolves(V6, settings.endpoints6, lookup)
      requires memory.iface in host.ifaces && Installed(lookup)
      modifies this`step, this`host, this`history, this`memory, this`dnsInstalled
      ensures Configuring() && OthersKept() && Grown()
      ensures ok ==> SetUp(Wireguard, settings, lookup)
      ensures NothingFails() && old(Feasible(Wireguard, settings, lookup)) ==> ok
    {
      ok := ConfigureTunnel(settings, lookup);
      if ok {
        ok := ConfigureDns(settings);
      }
    }

    method Configure(kind: Kind, settings: Settings, lookup: (Family, string) -> Lookup) returns (ok: bool)
      requires Configuring() && Resolves(V4, settings.endpoints4, lookup) && Resolves(V6, settings.endpoints6, lookup)
      requires memory.iface in host.ifaces && Installed(lookup)
      modifies this`step, this`host, this`history, this`memory, this`dnsInstalled
      ensures Configuring() && OthersKept() && Grown()
      ensures ok ==> SetUp(kind, settings, lookup)
      ensures NothingFails() && old(Feasible(kind, settings, lookup)) ==> ok
    {
      ok := Command();
      if ok && kind == Wireguard {
        ok := ConfigureWireguard(settings, lookup);
      }
    }

    // Everything after the token and the first name are drawn, up to the point of giving up.
    method Establish(kind: Kind, managed: seq<string>, settings: Settings, lookup: (Family, string) -> Lookup)
      returns (ok: bool, ghost mark: nat)
      requires Starting(managed)
      requires if kind == Wireguard then CloneName(memory.iface) else ManagedName(memory.iface)
      requires Resolves(V4, settings.endpoints4, lookup) && Resolves(V6, settings.endpoints6, lookup)
      modifies this`step, this`host, this`history, this`memory, this`dnsInstalled
      ensures Accounted() && OthersKept() && old(history) <= history
      ensures Window(|old(history)|, mark, old(memory)) && (kind == Dummy ==> mark == |old(history)|)
      ensures memory.uid == old(memory).uid && memory.pid == old(memory).pid
      ensures ok ==> Configuring() && SetUp(kind, settings, lookup)
      ensures NothingFails() && old(Feasible(kind, settings, lookup)) ==> ok
    {
      ok, mark := Begin(kind, managed);
      if ok {
        ok := Configure(kind, settings, lookup);
      }
    }

    // Nothing of this activation exists yet; its first name is unused.
    ghost predicate Starting(managed: seq<string>)
      reads this
    {
      && Accounted() && token !in host.files
      && memory.rename.None? && memory.routes == [] && Unused(host, memory.iface) && memory.iface !in managed
      && FreshNames(managed)
    }

    // Save the first record, then create the interface it names.
    method BeginDummy(managed: seq<string>) returns (ok: bool)
      requires Starting(managed) && ManagedName(memory.iface)
      modifies this`step, this`host, this`history
      ensures Accounted() && OthersKept() && Grown()
      ensures ok ==> Configuring() && memory.iface in host.ifaces
      ensures host.routes == old(host).routes
      ensures NothingFails() ==> ok
    {
      ok := SaveTracked();
      if ok {
        ok := CreateInterface(memory.iface);
      }
    }

    method BeginWireguard(managed: seq<string>) returns (ok: bool, ghost mark: nat)
      requires Starting(managed) && CloneName(memory.iface)
      modifies this`step, this`host, this`history, this`memory
      ensures Accounted() && OthersKept() && old(history) <= history
      ensures Window(|old(history)|, mark, old(memory))
      ensures memory.(iface := "", rename := None) == old(memory).(iface := "")
      ensures ok ==> Configuring() && memory.iface in host.ifaces
      ensures ok ==> memory.iface in managed && memory.rename.None?
      ensures host.routes == old(host).routes
      ensures NothingFails() ==> ok
    {
      mark := |history|;
      ok := SaveTracked();
      if ok {
        ok, mark := CreateWireguardInterface(managed);
      }
    }

    method Begin(kind: Kind, managed: seq<string>) returns (ok: bool, ghost mark: nat)
      requires Starting(managed)
      requires if kind == Wireguard then CloneName(memory.iface) else ManagedName(memory.iface)
      modifies this`step, this`host, this`history, this`memory
      ensures Accounted() && OthersKept() && old(history) <= history
      ensures Window(|old(history)|, mark, old(memory)) && (kind == Dummy ==> mark == |old(history)|)
      ensures memory.(iface := "", rename := None) == old(memory).(iface := "")
      ensures ok ==> Configuring() && memory.iface in host.ifaces
      ensures host.routes == old(host).routes
      ensures NothingFails() ==> ok
    {
      if kind == Wireguard {
        ok, mark := BeginWireguard(managed);
      } else {
        mark := |history|;
        ok := BeginDummy(managed);
      }
    }

    // Clean up after a failure; a window that reached the end still does.
    method GiveUp(kind: Kind, ghost start: nat, ghost mark: nat, ghost bare: Record) returns (ghost end: nat)
      requires Accounted() && Window(start, mark, bare) && (kind == Dummy ==> mark == start)
      requires start == |history| ==> token !in host.files
      modifies this`step, this`host, this`history
      ensures Safe() && OthersKeptBut(RouteSet(memory.routes)) && old(history) <= history
      ensures Window(start, end, bare) && (kind == Dummy ==> end == mark)
    {
      assert start < |history| ==> history[|history| - 1] == host;
      var cleaned := CleanupActivation(kind);
      end := if mark == |old(history)| && kind == Wireguard then |history| else mark;
    }

    method Attempt(kind: Kind, managed: seq<string>, settings: Settings, lookup: (Family, string) -> Lookup)
      returns (ok: bool, ghost mark: nat)
      requires Starting(managed)
      requires if kind == Wireguard then CloneName(memory.iface) else ManagedName(memory.iface)
      requires Resolves(V4, settings.endpoints4, lookup) && Resolves(V6, settings.endpoints6, lookup)
      modifies this`step, this`host, this`history, this`memory, this`dnsInstalled
      ensures Safe() && old(history) <= history && OthersKeptBut(RouteSet(memory.routes))
      ensures ok ==> OthersKept()
      ensures Window(|old(history)|, mark, old(memory)) && (kind == Dummy ==> mark == |old(history)|)
      ensures memory.uid == old(memory).uid && memory.pid == old(memory).pid
      ensures ok ==> Configuring() && SetUp(kind, settings, lookup)
      ensures NothingFails() && old(Feasible(kind, settings, lookup)) ==> ok
    {
      ok, mark := Establish(kind, managed, settings, lookup);
      if !ok {
        assert |history| == |old(history)| ==> history == old(history);
        mark := GiveUp(kind, |old(history)|, mark, old(memory));
      }
    }

    // The whole activation. Every host it leaves behind, at whatever point it is
    // killed, is crash safe and touches nothing of others, except that a failed
    // activation's cleanup deletes whatever routes its record names. The record is
    // loadable exactly from position mark on, as long as its file is small and the
    // owner one that the reader accepts.
    method Activate(kind: Kind, t: Token, first: Record, managed: seq<string>, settings: Settings,
                    lookup: (Family, string) -> Lookup)
      returns (ok: bool, ghost mark: nat)
      requires Safe() && t !in host.files
      requires first.rename.None? && first.routes == [] && Unused(host, first.iface) && first.iface !in managed
      requires if kind == Wireguard then CloneName(first.iface) else ManagedName(first.iface)
      requires FreshNames(managed)
      requires Resolves(V4, settings.endpoints4, lookup) && Resolves(V6, settings.endpoints6, lookup)
      modifies this
      ensures Safe() && token == t && old(history) <= history
      ensures forall i :: |old(history)| <= i < |history| ==>
        RespectsBut(old(host), history[i], t, RouteSet(memory.routes))
      ensures ok ==> forall i :: |old(history)| <= i < |history| ==> Respects(old(host), history[i], t)
      ensures Decided(|old(history)|, mark, first) && (kind == Dummy ==> mark == |old(history)|)
      ensures ok ==> Configuring() && SetUp(kind, settings, lookup)
      ensures NothingFails() && CanBeMet(old(host).routes, [], kind, settings, lookup) ==> ok
    {
      token, memory, dnsInstalled := t, first, false;
      MissingRecordOwnsNothing(host, t);
      ok, mark := Attempt(kind, managed, settings, lookup);
      WindowDecides(|old(history)|, mark, first);
    }

    // ---------- Recovery ----------

    // Every command issued since succeeded.
    twostate predicate AllSucceeded()
      reads this
    {
      forall i :: old(step) <= i < step ==> script(i)
    }

    method DestroyIfPresent(n: string) returns (ok: bool)
      requires Safe() && (n in host.ifaces ==> host.ifaces[n] == Some(token))
      modifies this`step, this`host, this`history
      ensures Safe() && OnlyShrank() && OthersKept() && host == old(host).(ifaces := host.ifaces)
      ensures ok ==> n !in host.ifaces
      ensures AllSucceeded() ==> ok
    {
      ok := true;
      if n in host.ifaces {
        ok := Destroy(n);
      }
    }

    method DestroyPresent(r: Record) returns (ok: bool)
      requires Safe() && forall n :: n in host.ifaces && Names(r, n) ==> host.ifaces[n] == Some(token)
      modifies this`step, this`host, this`history
      ensures Safe() && OnlyShrank() && OthersKept() && host == old(host).(ifaces := host.ifaces)
      ensures ok ==> forall n :: n in host.ifaces ==> !Names(r, n)
      ensures AllSucceeded() ==> ok
    {
      ok := DestroyIfPresent(r.iface);
      if r.rename.Some? {
        var destroyed := DestroyIfPresent(r.rename.value);
        ok := ok && destroyed;
      }
    }

    method ReleaseLoaded(r: Record) returns (ok: bool)
      requires Safe() && token in host.files && host.files[token] == r
      modifies this`step, this`host, this`history
      ensures Safe() && OnlyShrank() && OthersKeptBut(RouteSet(r.routes))
      ensures host.dns == old(host).dns || ("fwg" <= r.iface && host.dns == old(host).dns - {r.iface})
      ensures ok ==> OwnsNothing(host, token) && ("fwg" <= r.iface ==> r.iface !in host.dns)
      ensures ok ==> forall x :: x in r.routes ==> x !in host.routes
      ensures AllSucceeded() ==> ok
    {
      ok := DestroyPresent(r);
      var removed := RemoveRoutes(r.routes);
      ok := ok && removed;
      if "fwg" <= r.iface {
        removed := RemoveDns(r.iface);
        ok := ok && removed;
      }
    }

    method CleanupLoaded(t: Token) returns (ok: bool)
      requires Safe() && t in host.files
      modifies this`step, this`host, this`history, this`token
      ensures Safe() && old(history) <= history && old(step) <= step && OnlyTouched(old(host), host, t)
      ensures ok ==> Erased(old(host).files[t], host, t)
      ensures AllSucceeded() ==> ok
    {
      token := t;
      ok := ReleaseLoaded(host.files[t]);
      if ok {
        ok := RemoveStateFile(t);
      }
    }

    method CleanupStale(stale: Record -> bool, t: Token, ghost before: Host) returns (ok: bool)
      requires Safe() && LiveKept(stale, before, host) && t in host.files && stale(host.files[t])
      modifies this`step, this`host, this`history, this`token
      ensures Safe() && old(history) <= history && old(step) <= step && LiveKept(stale, before, host)
      ensures forall u :: u in old(host).files && u != t ==> u in host.files
      ensures ok ==> Erased(before.files[t], host, t)
      ensures forall u :: u in before.files && Erased(before.files[u], old(host), u) ==> Erased(before.files[u], host, u)
      ensures AllSucceeded() ==> ok
    {
      ok := CleanupLoaded(t);
      KeptComposes(stale, before, old(host), host, t);
      forall u | u in before.files && Erased(before.files[u], old(host), u) ensures Erased(before.files[u], host, u) {
        ErasedStays(before.files[u], old(host), host, u, t);
      }
    }

    // Read a state file and decide whether its owner is dead.
    method ReadsStale(t: Token, uid: nat, alive: nat -> bool) returns (yes: bool)
      requires t in host.files && CleanRecord(host.files[t])
      ensures yes <==> StaleFor(pton, uid, alive)(host.files[t])
    {
      var text := ActivationRecord.SaveState(host.files[t]);
      var loaded := LoadState(pton, text);
      LoadOfSave(pton, host.files[t]);
      yes := loaded.Some? && loaded.value.uid == uid && !alive(loaded.value.pid);
    }

    // One pass over a directory snapshot. Whatever fails, the journal stays safe and
    // only what stale records name is touched; when nothing fails, exactly that is gone.
    method RecoverStale(uid: nat, alive: nat -> bool, order: seq<Token>) returns (ok: bool)
      requires Safe() && CleanFiles(host) && (forall t :: t in order <==> t in host.files)
      requires forall i, j :: 0 <= i < j < |order| ==> order[i] != order[j]
      modifies this`step, this`host, this`history, this`token
      ensures Safe() && old(history) <= history && old(step) <= step
      ensures LiveKept(StaleFor(pton, uid, alive), old(host), host)
      ensures AllSucceeded() ==> ok
      ensures ok ==> Swept(StaleFor(pton, uid, alive), old(host), host)
    {
      ok := true;
      ghost var before, stale := host, StaleFor(pton, uid, alive);
      for k := 0 to |order|
        invariant Safe() && old(history) <= history && old(step) <= step
        invariant LiveKept(stale, before, host)
        invariant AllSucceeded() ==> ok
        invariant PassedOver(stale, before, host, order, k, ok)
      {
        var cleaned := RecoverNext(uid, alive, order, k, before, ok);
        ok := ok && cleaned;
      }
      if ok {
        AllErasedIsSwept(stale, before, host, order);
      }
    }

    method RecoverNext(uid: nat, alive: nat -> bool, order: seq<Token>, k: nat, ghost before: Host, ghost sofar: bool)
      returns (ok: bool)
      requires Safe() && CleanFiles(before) && LiveKept(StaleFor(pton, uid, alive), before, host)
      requires k < |order| && PassedOver(StaleFor(pton, uid, alive), before, host, order, k, sofar)
      requires forall t :: t in order ==> t in before.files
      requires forall i, j :: 0 <= i < j < |order| ==> order[i] != order[j]
      modifies this`step, this`host, this`history, this`token
      ensures Safe() && old(history) <= history && old(step) <= step
      ensures LiveKept(StaleFor(pton, uid, alive), before, host)
      ensures AllSucceeded() ==> ok
      ensures PassedOver(StaleFor(pton, uid, alive), before, host, order, k + 1, sofar && ok)
    {
      ok := true;
      var dead := ReadsStale(order[k], uid, alive);
      if dead {
        ok := CleanupStale(StaleFor(pton, uid, alive), order[k], before);
      }
    }

    // The recovery that precedes every operation of the helper. Whatever fails, it
    // takes only what stale records name and the resolver entries of managed
    // interfaces that are gone; when nothing fails, it takes exactly that.
    method Recover(uid: nat, alive: nat -> bool, order: seq<Token>, listing: Host -> seq<string>) returns (ok: bool)
      requires Safe() && CleanFiles(host) && (forall t :: t in order <==> t in host.files)
      requires forall i, j :: 0 <= i < j < |order| ==> order[i] != order[j]
      requires forall h, n :: n in listing(h) <==> n in h.dns
      modifies this`step, this`host, this`history, this`token
      ensures Safe() && old(history) <= history
      ensures Recovered(StaleFor(pton, uid, alive), old(host), host)
      ensures AllSucceeded() ==> ok
      ensures ok ==> FullyRecovered(StaleFor(pton, uid, alive), old(host), host)
    {
      ghost var stale := StaleFor(pton, uid, alive);
      ok := RecoverStale(uid, alive, order);
      ghost var middle := host;
      var dns := RecoverOrphanedDns(listing(host));
      if ok && dns {
        SweptThenUnorphaned(stale, old(host), middle, host);
      }
      ok := ok && dns;
    }

    // Resolver entries whose managed interface no longer exists are dropped, and no others.
    method RecoverOrphanedDns(listed: seq<string>) returns (ok: bool)
      requires Safe() && forall n :: n in listed <==> n in host.dns
      modifies this`step, this`host, this`history
      ensures Safe() && host == old(host).(dns := host.dns) && host.dns <= old(host).dns
      ensures old(history) <= history && old(step) <= step
      ensures AllSucceeded() ==> ok
      ensures forall n :: n in old(host).dns && !Orphaned(host, n) ==> n in host.dns
      ensures ok ==> forall n :: n in host.dns ==> !Orphaned(host, n)
    {
      ok := true;
      for k := 0 to |listed|
        invariant Safe() && host == old(host).(dns := host.dns) && host.dns <= old(host).dns
        invariant old(history) <= history && old(step) <= step
        invariant AllSucceeded() ==> ok
        invariant forall n :: n in old(host).dns && !Orphaned(host, n) ==> n in host.dns
        invariant ok ==> forall j :: 0 <= j < k && listed[j] in host.dns ==> !Orphaned(host, listed[j])
      {
        var n := listed[k];
        if ValidName(n) && "fwg" <= n && n !in host.ifaces {
          var removed := RemoveDns(n);
          ok := ok && removed;
        }
      }
    }
  }

  // A record of this user whose owner process is gone and that can be loaded.
  predicate Stale(pton: AddressTest, uid: nat, alive: nat -> bool, r: Record) {
    Loadable(pton, r) && r.uid == uid && !alive(r.pid)
  }

  function StaleFor(pton: AddressTest, uid: nat, alive: nat -> bool): Record -> bool {
    r => Stale(pton, uid, alive, r)
  }

  lemma CloneIsNotManaged(name: string)
    requires CloneName(name)
    ensures !ManagedName(name)
  {
    assert name[0] == 'w';
  }

  // The record saved before the rename loop is refused by every later run, so a
  // run killed before the loop's first save leaves its clone behind.
  lemma BareRecordIsNeverStale(pton: AddressTest, uid: nat, alive: nat -> bool, r: Record)
    requires CloneName(r.iface)
    ensures !Stale(pton, uid, alive, r)
  {
    CloneIsNotManaged(r.iface);
  }

  // Nothing of activation t, whose record was r, is left on h.
  ghost predicate Erased(r: Record, h: Host, t: Token) {
    && t !in h.files && OwnsNothing(h, t) && ("fwg" <= r.iface ==> r.iface !in h.dns)
    && forall x :: x in r.routes ==> x !in h.routes
  }

  // Some stale record lists this route, or names this tunnel interface.
  ghost predicate ClaimsRoute(stale: Record -> bool, h: Host, x: Route) {
    exists t :: t in h.files && stale(h.files[t]) && x in h.files[t].routes
  }

  ghost predicate ClaimsTunnel(stale: Record -> bool, h: Host, n: string) {
    "fwg" <= n && exists t :: t in h.files && stale(h.files[t]) && h.files[t].iface == n
  }

  ghost predicate OwnedByStale(stale: Record -> bool, h: Host, n: string)
    requires n in h.ifaces
  {
    h.ifaces[n].Some? && h.ifaces[n].value in h.files && stale(h.files[h.ifaces[n].value])
  }

  // A resolver entry of a managed tunnel interface that does not exist.
  ghost predicate Orphaned(h: Host, n: string) {
    ValidName(n) && "fwg" <= n && n !in h.ifaces
  }

  // What stale owners do not own and stale records do not name is as before.
  ghost predicate LiveKept(stale: Record -> bool, before: Host, after: Host) {
    && RegistryKept(stale, before, after)
    && after.dns <= before.dns
    && forall n :: n in before.dns && n !in after.dns ==> ClaimsTunnel(stale, before, n)
  }

  ghost predicate RegistryKept(stale: Record -> bool, before: Host, after: Host) {
    && after.ifaces.Keys <= before.ifaces.Keys && after.files.Keys <= before.files.Keys
    && after.routes.Keys <= before.routes.Keys
    && (forall t :: t in after.files ==> after.files[t] == before.files[t])
    && (forall n :: n in after.ifaces ==> after.ifaces[n] == before.ifaces[n])
    && (forall x :: x in after.routes ==> after.routes[x] == before.routes[x])
    && (forall t :: t in before.files && !stale(before.files[t]) ==> t in after.files)
    && (forall n :: n in before.ifaces && n !in after.ifaces ==> OwnedByStale(stale, before, n))
    && (forall x :: x in before.routes && x !in after.routes ==> ClaimsRoute(stale, before, x))
  }

  // Exactly the stale records, what they own and what they name are gone.
  ghost predicate Swept(stale: Record -> bool, before: Host, after: Host) {
    && RegistrySwept(stale, before, after)
    && forall n :: n in after.dns <==> n in before.dns && !ClaimsTunnel(stale, before, n)
  }

  ghost predicate RegistrySwept(stale: Record -> bool, before: Host, after: Host) {
    && (forall t :: t in after.files <==> t in before.files && !stale(before.files[t]))
    && (forall n :: n in after.ifaces <==> n in before.ifaces && !OwnedByStale(stale, before, n))
    && (forall x :: x in after.routes <==> x in before.routes && !ClaimsRoute(stale, before, x))
  }

  ghost predicate Recovered(stale: Record -> bool, before: Host, after: Host) {
    && RegistryKept(stale, before, after) && after.dns <= before.dns
    && forall n :: n in before.dns && n !in after.dns ==> ClaimsTunnel(stale, before, n) || Orphaned(after, n)
  }

  ghost predicate FullyRecovered(stale: Record -> bool, before: Host, after: Host) {
    && RegistryKept(stale, before, after) && RegistrySwept(stale, before, after)
    && forall n :: n in after.dns <==>
      n in before.dns && !ClaimsTunnel(stale, before, n) && !Orphaned(after, n)
  }

  lemma SweptThenUnorphaned(stale: Record -> bool, before: Host, middle: Host, after: Host)
    requires LiveKept(stale, before, middle) && Swept(stale, before, middle)
    requires after == middle.(dns := after.dns) && after.dns <= middle.dns
    requires forall n :: n in middle.dns && !Orphaned(after, n) ==> n in after.dns
    requires forall n :: n in after.dns ==> !Orphaned(after, n)
    ensures FullyRecovered(stale, before, after)
  {
  }

  // after was reached from middle by working on activation t only.
  ghost predicate OnlyTouched(middle: Host, after: Host, t: Token)
    requires t in middle.files
  {
    var r := middle.files[t];
    && RespectsBut(middle, after, t, RouteSet(r.routes))
    && after.ifaces.Keys <= middle.ifaces.Keys && after.routes.Keys <= middle.routes.Keys
    && (forall n :: n in after.ifaces ==> after.ifaces[n] == middle.ifaces[n])
    && (forall x :: x in after.routes ==> after.routes[x] == middle.routes[x])
    && (t in after.files ==> after.files[t] == r)
    && (after.dns == middle.dns || ("fwg" <= r.iface && after.dns == middle.dns - {r.iface}))
  }

  // Only routes that its own record lists can be lost to the work on t.
  lemma LostRoutesAreNamed(middle: Host, after: Host, t: Token, x: Route)
    requires CrashSafe(middle) && t in middle.files && OnlyTouched(middle, after, t)
    requires x in middle.routes && x !in after.routes
    ensures x in middle.files[t].routes
  {
    var named := RouteSet(middle.files[t].routes);
    assert x !in OtherRoutes(after, t) - named;
    assert x !in OtherRoutes(middle, t) - named;
  }

  lemma KeptComposes(stale: Record -> bool, before: Host, middle: Host, after: Host, t: Token)
    requires CrashSafe(middle) && t in middle.files && stale(middle.files[t])
    requires LiveKept(stale, before, middle) && OnlyTouched(middle, after, t)
    ensures LiveKept(stale, before, after)
    ensures forall u :: u in middle.files && u != t ==> u in after.files
  {
    forall u | u in middle.files && u != t ensures u in after.files {
      assert u in OtherFiles(middle, t);
    }
    forall u | u in after.files ensures u in middle.files && after.files[u] == middle.files[u] {
      assert u != t ==> u in OtherFiles(after, t);
    }
    forall n | n in middle.ifaces && n !in after.ifaces ensures middle.ifaces[n] == Some(t) {
      assert n !in OtherIfaces(after, t);
    }
    forall x | x in middle.routes && x !in after.routes ensures ClaimsRoute(stale, before, x) {
      LostRoutesAreNamed(middle, after, t, x);
    }
  }

  // Once every stale record is erased, only what was live is left.
  lemma AllErasedIsSwept(stale: Record -> bool, before: Host, after: Host, order: seq<Token>)
    requires LiveKept(stale, before, after) && PassedOver(stale, before, after, order, |order|, true)
    requires forall t :: t in before.files ==> t in order
    ensures Swept(stale, before, after)
  {
    forall t | t in before.files && stale(before.files[t]) ensures Erased(before.files[t], after, t) {
      var j :| 0 <= j < |order| && order[j] == t;
    }
  }

  // A resolver entry stays as long as its interface belongs to nobody stale.
  lemma LiveEntryStays(stale: Record -> bool, before: Host, after: Host, n: string)
    requires CrashSafe(before) && Recovered(stale, before, after)
    requires n in before.dns && n in before.ifaces && !OwnedByStale(stale, before, n)
    ensures n in after.dns
  {
    if t :| t in before.files && stale(before.files[t]) && before.files[t].iface == n {
      assert Names(before.files[t], n);
    }
  }

  // The recovery pass has dealt with the first k records, and not yet touched the rest.
  ghost predicate PassedOver(
    stale: Record -> bool, before: Host, now: Host, order: seq<Token>, k: nat, ok: bool)
  {
    && k <= |order| && (forall j :: 0 <= j < |order| ==> order[j] in before.files)
    && (forall j :: k <= j < |order| ==> order[j] in now.files)
    && (ok ==> forall j :: 0 <= j < k && stale(before.files[order[j]]) ==> Erased(before.files[order[j]], now, order[j]))
  }

  lemma ErasedStays(r: Record, middle: Host, after: Host, u: Token, t: Token)
    requires t in middle.files && Erased(r, middle, u) && OnlyTouched(middle, after, t)
    ensures Erased(r, after, u)
  {
    assert u != t ==> u !in OtherFiles(middle, t);
  }

  // ---------- Killed anywhere, then recovered ----------

  ghost predicate NothingLeft(h: Host, t: Token) {
    t !in h.files && OwnsNothing(h, t)
  }

  ghost predicate Enumerates(order: Host -> seq<Token>, listing: Host -> seq<string>) {
    && (forall h, t :: t in order(h) <==> t in h.files)
    && (forall h, i, j :: 0 <= i < j < |order(h)| ==> order(h)[i] != order(h)[j])
    && forall h, n :: n in listing(h) <==> n in h.dns
  }

  // What a completed recovery of h leaves of an activation whose owner is dead.
  lemma RecoveryDecides(
    pton: AddressTest, uid: nat, pid: nat, alive: nat -> bool, h: Host, after: Host, t: Token)
    requires CrashSafe(h) && CrashSafe(after) && FullyRecovered(StaleFor(pton, uid, alive), h, after) && !alive(pid)
    requires t in h.files ==> h.files[t].uid == uid && h.files[t].pid == pid
    ensures NothingLeft(after, t) <==> t !in h.files || Loadable(pton, h.files[t])
    ensures t in h.files && Loadable(pton, h.files[t]) ==> Erased(h.files[t], after, t)
    ensures t in h.files && !Loadable(pton, h.files[t]) ==>
      t in after.files && forall n :: n in h.ifaces && h.ifaces[n] == Some(t) ==> n in after.ifaces
  {
    var stale := StaleFor(pton, uid, alive);
    if t !in after.files {
      MissingRecordOwnsNothing(after, t);
    }
    if t in h.files && Loadable(pton, h.files[t]) {
      assert stale(h.files[t]);
      forall x | x in h.files[t].routes ensures x !in after.routes {
        assert ClaimsRoute(stale, h, x);
      }
      assert "fwg" <= h.files[t].iface ==> ClaimsTunnel(stale, h, h.files[t].iface);
    }
  }

  lemma StillClean(base: Host, h: Host, t: Token, named: set<Route>)
    requires CleanFiles(base) && RespectsBut(base, h, t, named)
    requires t in h.files ==> CleanRecord(h.files[t])
    ensures CleanFiles(h)
  {
    forall u | u in h.files && u != t ensures CleanRecord(h.files[u]) {
      assert u in OtherFiles(h, t);
      assert OtherFiles(h, t)[u] == OtherFiles(base, t)[u];
    }
  }

  // An activation is killed after any of its changes, whatever succeeded so far; its
  // owner dies, and the next run of the helper recovers without a failure. Nothing
  // of the activation is left if and only if there was no record, or its file is no
  // longer than the reader allows, the owner is neither root nor orphaned at the
  // start, and a tunnel's record names more than the clone.
  method CrashAndRecover(
    helper: Helper, kind: Kind, t: Token, first: Record, managed: seq<string>, settings: Settings,
    lookup: (Family, string) -> Lookup, at: nat, again: nat -> bool, alive: nat -> bool,
    order: Host -> seq<Token>, listing: Host -> seq<string>)
    returns (later: Helper)
    requires helper.Safe() && t !in helper.host.files
    requires first.rename.None? && first.routes == [] && Unused(helper.host, first.iface) && first.iface !in managed
    requires if kind == Wireguard then CloneName(first.iface) else ManagedName(first.iface)
    requires helper.FreshNames(managed)
    requires helper.Resolves(V4, settings.endpoints4, lookup) && helper.Resolves(V6, settings.endpoints6, lookup)
    requires CleanFiles(helper.host) && PlainAddresses(helper.pton)
    requires Enumerates(order, listing) && (forall n :: again(n)) && !alive(first.pid)
    modifies helper
    ensures |old(helper.history)| <= at < |helper.history| ==>
      var h := helper.history[at];
      && (NothingLeft(later.host, t) <==>
            t !in h.files || (Small(h.files[t]) && ValidOwner(first.uid, first.pid)
                              && (kind == Wireguard ==> h.files[t].iface != first.iface)))
      && (t in h.files && NothingLeft(later.host, t) ==> Erased(h.files[t], later.host, t))
      && FullyRecovered(StaleFor(helper.pton, first.uid, alive), h, later.host)
  {
    var started := helper.history;
    var ok, mark := helper.Activate(kind, t, first, managed, settings, lookup);
    var h := if |started| <= at < |helper.history| then helper.history[at] else started[|started| - 1];
    if |started| <= at < |helper.history| {
      StillClean(started[|started| - 1], h, t, RouteSet(helper.memory.routes));
    }
    later := new Helper(h, again, helper.pton);
    var recovered := later.Recover(first.uid, alive, order(h), listing);
    assert recovered;
    if |old(helper.history)| <= at < |helper.history| {
      RecoveryDecides(helper.pton, first.uid, first.pid, alive, h, later.host, t);
    }
  }
}
