// The link manager as the process runs it: arrays searched by index loops and
// edited in place, proved against the steps of ScreenCastLinker.
module ScreenCastBridge {
  import opened Collections
  import opened ScreenCastLinker

  // ---------- Searches ----------

  method LookupPermission(c: Client, id: nat) returns (bits: Option<nat>)
    ensures bits.Some? ==>
      exists i: nat :: FirstEntry(c.permissions, id, i) && c.permissions[i].bits == bits.value
    ensures bits.None? ==> forall i: nat :: !FirstEntry(c.permissions, id, i)
  {
    for i := 0 to |c.permissions|
      invariant forall j :: 0 <= j < i ==> c.permissions[j].id != id
    {
      if c.permissions[i].id == id {
        assert FirstEntry(c.permissions, id, i);
        return Some(c.permissions[i].bits);
      }
    }
    bits := None;
  }

  lemma FirstEntryUnique(entries: seq<Permission>, id: nat, i: nat, j: nat)
    requires FirstEntry(entries, id, i) && FirstEntry(entries, id, j)
    ensures i == j
  {
  }

  method MayRead(c: Client, id: nat) returns (yes: bool)
    ensures yes <==> Readable(c, id)
  {
    var bits := LookupPermission(c, id);
    yes := bits.Some? && CanRead(bits.value);
    if Readable(c, id) {
      var i: nat :| FirstEntry(c.permissions, id, i) && CanRead(c.permissions[i].bits);
      var j: nat :| FirstEntry(c.permissions, id, j) && c.permissions[j].bits == bits.value;
      FirstEntryUnique(c.permissions, id, i, j);
    }
  }

  method IsRestricted(c: Client) returns (yes: bool)
    ensures yes <==> Restricted(c)
  {
    var bits := LookupPermission(c, ANY_ID);
    yes := c.permissionsReceived && bits.Some? && bits.value == 0;
    if Restricted(c) {
      var i: nat :| FirstEntry(c.permissions, ANY_ID, i) && c.permissions[i].bits == 0;
      var j: nat :| FirstEntry(c.permissions, ANY_ID, j) && c.permissions[j].bits == bits.value;
      FirstEntryUnique(c.permissions, ANY_ID, i, j);
    }
  }

  method SourceForId(s: Session, id: nat) returns (found: Option<Source>)
    ensures found.Some? <==> Approves(s, id)
    ensures found.Some? ==> found.value in s.sources && found.value.nodeId == id
  {
    for i := 0 to |s.sources|
      invariant forall j :: 0 <= j < i ==> s.sources[j].nodeId != id
    {
      if s.sources[i].nodeId == id {
        return Some(s.sources[i]);
      }
    }
    found := None;
  }

  // Whether the one source approved under the node's id has the node's generation.
  method NodeIsApproved(s: Session, n: Node) returns (yes: bool)
    requires Pairwise(s.sources, OtherSource)
    ensures yes <==> Approved(s, n)
  {
    var x := SourceForId(s, n.id);
    yes := x.Some? && GenerationMatches(x.value, n);
  }

  method FindNode(nodes: seq<Node>, id: nat) returns (found: Option<Node>)
    ensures found.Some? ==> found.value in nodes && found.value.id == id
    ensures found.None? ==> forall n :: n in nodes ==> n.id != id
  {
    for i := 0 to |nodes|
      invariant forall j :: 0 <= j < i ==> nodes[j].id != id
    {
      if nodes[i].id == id {
        return Some(nodes[i]);
      }
    }
    found := None;
  }

  // The client and the session belong together exactly by the declarative rule.
  method ClientMatchesSession(sessions: seq<Session>, c: Client, si: nat) returns (yes: bool)
    requires si < |sessions|
    ensures yes <==> Matches(sessions, c, si)
  {
    var s := sessions[si];
    var restricted := IsRestricted(c);
    if !restricted || s.closed || s.closeRequested || |s.sources| == 0 {
      return false;
    }
    for i := 0 to |s.sources|
      invariant forall j :: 0 <= j < i ==> Readable(c, s.sources[j].nodeId)
    {
      var readable := MayRead(c, s.sources[i].nodeId);
      if !readable {
        assert s.sources[i] in s.sources;
        return false;
      }
    }
    for k := 0 to |sessions|
      invariant forall m, x :: 0 <= m < k && m != si && x in sessions[m].sources ==>
        Approves(s, x.nodeId) || !Readable(c, x.nodeId)
    {
      if k != si {
        for j := 0 to |sessions[k].sources|
          invariant forall i :: 0 <= i < j ==>
            Approves(s, sessions[k].sources[i].nodeId) || !Readable(c, sessions[k].sources[i].nodeId)
        {
          var id := sessions[k].sources[j].nodeId;
          var approved := SourceForId(s, id);
          var readable := MayRead(c, id);
          if approved.None? && readable {
            assert sessions[k].sources[j] in sessions[k].sources;
            return false;
          }
        }
      }
    }
    yes := true;
  }

  // The node with a source's id, if it is the approved generation.
  method ApprovedNode(nodes: seq<Node>, s: Session, x: Source) returns (found: Option<Node>)
    requires Pairwise(nodes, OtherNode) && Pairwise(s.sources, OtherSource) && x in s.sources
    ensures found.Some? ==> found.value in nodes && GenerationMatches(x, found.value)
    ensures found.None? ==> !Present(nodes, x)
  {
    var n := FindNode(nodes, x.nodeId);
    if n.Some? {
      var approved := NodeIsApproved(s, n.value);
      if approved {
        return n;
      }
      assert !GenerationMatches(x, n.value);
    }
    found := None;
  }

  method SourceNodeForConsumer(nodes: seq<Node>, s: Session, consumer: Node) returns (found: Option<Node>)
    requires Pairwise(nodes, OtherNode) && Pairwise(s.sources, OtherSource)
    ensures forall n :: Selects(nodes, s, consumer, n) <==> found == Some(n)
  {
    if |s.sources| == 1 {
      assert s.sources[0] in s.sources;
      found := ApprovedNode(nodes, s, s.sources[0]);
      return;
    }
    if consumer.target.None? {
      return None;
    }
    var target := consumer.target.value;
    for i := 0 to |s.sources|
      invariant forall j :: 0 <= j < i && Targets(s.sources[j], target) ==> !Present(nodes, s.sources[j])
    {
      if Targets(s.sources[i], target) {
        assert s.sources[i] in s.sources;
        found := ApprovedNode(nodes, s, s.sources[i]);
        if found.Some? {
          assert PicksAt(nodes, s.sources, target, found.value, i);
          PickIsUnique(nodes, s, consumer, found.value, i);
          return;
        }
      }
    }
    found := None;
  }

  // At most one node can be selected.
  lemma PickIsUnique(nodes: seq<Node>, s: Session, consumer: Node, n: Node, i: nat)
    requires Pairwise(nodes, OtherNode) && n in nodes && |s.sources| != 1
    requires consumer.target.Some? && PicksAt(nodes, s.sources, consumer.target.value, n, i)
    ensures forall m :: Selects(nodes, s, consumer, m) <==> m == n
  {
    forall m | Selects(nodes, s, consumer, m) ensures m == n {
      var k: nat :| PicksAt(nodes, s.sources, consumer.target.value, m, k);
      assert Present(nodes, s.sources[i]) && Present(nodes, s.sources[k]);
      assert i == k;
    }
  }

  method OverwritePermissions(current: seq<Permission>, index: nat, entries: seq<Permission>)
    returns (permissions: seq<Permission>)
    ensures permissions == MergePermissions(current, index, entries)
  {
    permissions := if index == 0 then [] else current;
    if index > |permissions| {
      permissions := permissions + seq(index - |permissions|, _ => Permission(0, 0));
    }
    ghost var padded := permissions;
    for i := 0 to |entries|
      invariant permissions ==
        padded[..index] + entries[..i] + (if index + i < |padded| then padded[index + i..] else [])
    {
      if index + i < |permissions| {
        permissions := permissions[index + i := entries[i]];
      } else {
        permissions := permissions + [entries[i]];
      }
      assert entries[..i + 1] == entries[..i] + [entries[i]];
    }
    assert entries[..|entries|] == entries;
  }

  // ---------- The manager ----------

  // links grew from w's by justified links only, without repeating a live key.
  ghost predicate Progress(w: World, accepts: Link -> bool, links: seq<Link>) {
    && w.links <= links
    && (forall k :: |w.links| <= k < |links| ==> Justified(w, accepts, links[k]))
    && (KeysUnique(w.links) ==> KeysUnique(links))
  }

  lemma KeyStays(links: seq<Link>, longer: seq<Link>, l: Link)
    requires links <= longer && HasKey(links, l)
    ensures HasKey(longer, l)
  {
    var k :| 0 <= k < |links| && links[k].live && SameKey(links[k], l);
    assert longer[k] == links[k];
  }

  class Bridge {
    var clients: seq<Client>
    var nodes: seq<Node>
    var ports: seq<Port>
    var links: seq<Link>
    var sessions: seq<Session>

    constructor ()
      ensures State() == EMPTY && Inv(State())
    {
      clients, nodes, ports, links, sessions := [], [], [], [], [];
    }

    ghost function State(): World
      reads this
    {
      World(clients, nodes, ports, links, sessions)
    }

    method LinkExists(si: nat, output: nat, input: nat) returns (yes: bool)
      ensures yes <==> HasKey(links, Link(true, si, 0, 0, 0, output, input))
    {
      for i := 0 to |links|
        invariant forall j :: 0 <= j < i ==>
          !(links[j].live && links[j].session == si && links[j].output == output && links[j].input == input)
      {
        if links[i].live && links[i].session == si && links[i].output == output && links[i].input == input {
          return true;
        }
      }
      yes := false;
    }

    method CreateLink(si: nat, c: Client, source: Node, output: Port, consumer: Node, input: Port,
                      accepts: Link -> bool, ghost w: World)
      requires w == State().(links := w.links) && Registry(w) && Progress(w, accepts, links)
      requires Eligible(w, c, si, consumer, source, output, input)
      modifies this`links
      ensures Progress(w, accepts, links)
      ensures var l := MakeLink(c, si, consumer, source, output, input);
        links == if accepts(l) && !HasKey(old(links), l) then old(links) + [l] else old(links)
    {
      assert sessions[si] in sessions;
      SelectedIsApproved(nodes, sessions[si], consumer, source);
      var known := SourceForId(sessions[si], source.id);
      var approved := NodeIsApproved(sessions[si], source);
      var linked := LinkExists(si, output.id, input.id);
      var l := MakeLink(c, si, consumer, source, output, input);
      if known.None? || !approved || linked {
        assert linked;
        return;
      }
      if accepts(l) {
        assert !HasKey(w.links, l) by {
          if HasKey(w.links, l) {
            KeyStays(w.links, links, l);
          }
        }
        assert Justified(w, accepts, l);
        links := links + [l];
        assert links[|links| - 1] == l;
      }
    }

    method LinkPair(si: nat, c: Client, source: Node, output: Port, consumer: Node, input: Port,
                    accepts: Link -> bool, ghost w: World)
      requires w == State().(links := w.links) && Registry(w) && Progress(w, accepts, links)
      requires Eligible(w, c, si, consumer, source, output, input)
      modifies this`links
      ensures Progress(w, accepts, links) && old(links) <= links
      ensures Wanted(w, accepts, c, si, consumer, source, output, input) ==>
                HasKey(links, MakeLink(c, si, consumer, source, output, input))
    {
      CreateLink(si, c, source, output, consumer, input, accepts, w);
      if links != old(links) {
        assert links[|links| - 1].live && SameKey(links[|links| - 1], MakeLink(c, si, consumer, source, output, input));
      }
    }

    // One output port against every input port of the consumer.
    method LinkInputs(si: nat, c: Client, source: Node, output: Port, consumer: Node, accepts: Link -> bool,
                      ghost w: World)
      requires w == State().(links := w.links) && Registry(w) && Progress(w, accepts, links)
      requires c in clients && si < |sessions| && Matches(sessions, c, si)
      requires consumer in nodes && consumer.clientId == c.id && consumer.mediaClass == Some(INPUT_STREAM)
      requires Selects(nodes, sessions[si], consumer, source)
      requires output in ports && output.isOutput && output.nodeId == source.id
      modifies this`links
      ensures Progress(w, accepts, links) && old(links) <= links
      ensures forall input :: Wanted(w, accepts, c, si, consumer, source, output, input) ==>
                HasKey(links, MakeLink(c, si, consumer, source, output, input))
    {
      for i := 0 to |ports|
        invariant Progress(w, accepts, links) && old(links) <= links
        invariant forall input ::
                    input in ports[..i] && Wanted(w, accepts, c, si, consumer, source, output, input) ==>
                    HasKey(links, MakeLink(c, si, consumer, source, output, input))
      {
        ghost var previous := links;
        if ports[i].isInput && ports[i].nodeId == consumer.id {
          LinkPair(si, c, source, output, consumer, ports[i], accepts, w);
        }
        StillLinked(w, previous, links);
        assert ports[..i + 1] == ports[..i] + [ports[i]];
      }
    }

    method LinkPorts(si: nat, c: Client, source: Node, consumer: Node, accepts: Link -> bool, ghost w: World)
      requires w == State().(links := w.links) && Registry(w) && Progress(w, accepts, links)
      requires c in clients && si < |sessions| && Matches(sessions, c, si)
      requires consumer in nodes && consumer.clientId == c.id && consumer.mediaClass == Some(INPUT_STREAM)
      requires Selects(nodes, sessions[si], consumer, source)
      modifies this`links
      ensures Progress(w, accepts, links) && old(links) <= links
      ensures forall output, input :: Wanted(w, accepts, c, si, consumer, source, output, input) ==>
                HasKey(links, MakeLink(c, si, consumer, source, output, input))
    {
      for o := 0 to |ports|
        invariant Progress(w, accepts, links) && old(links) <= links
        invariant forall output, input ::
                    output in ports[..o] && Wanted(w, accepts, c, si, consumer, source, output, input) ==>
                    HasKey(links, MakeLink(c, si, consumer, source, output, input))
      {
        ghost var before := links;
        if ports[o].isOutput && ports[o].nodeId == source.id {
          LinkInputs(si, c, source, ports[o], consumer, accepts, w);
        }
        StillLinked(w, before, links);
        assert ports[..o + 1] == ports[..o] + [ports[o]];
      }
    }

    method LinkConsumers(si: nat, c: Client, accepts: Link -> bool, ghost w: World)
      requires w == State().(links := w.links) && Registry(w) && Progress(w, accepts, links)
      requires c in clients && si < |sessions| && Matches(sessions, c, si)
      modifies this`links
      ensures Progress(w, accepts, links) && old(links) <= links
      ensures forall consumer, source, output, input ::
                Wanted(w, accepts, c, si, consumer, source, output, input) ==>
                HasKey(links, MakeLink(c, si, consumer, source, output, input))
    {
      for k := 0 to |nodes|
        invariant Progress(w, accepts, links) && old(links) <= links
        invariant forall consumer, source, output, input ::
                    consumer in nodes[..k] && Wanted(w, accepts, c, si, consumer, source, output, input) ==>
                    HasKey(links, MakeLink(c, si, consumer, source, output, input))
      {
        var consumer := nodes[k];
        ghost var before := links;
        if consumer.clientId == c.id && consumer.mediaClass == Some(INPUT_STREAM) {
          assert sessions[si] in sessions;
          var source := SourceNodeForConsumer(nodes, sessions[si], consumer);
          if source.Some? {
            LinkPorts(si, c, source.value, consumer, accepts, w);
          }
        }
        StillLinked(w, before, links);
        assert nodes[..k + 1] == nodes[..k] + [consumer];
      }
    }

    // One linking pass: exact with respect to the eligibility rule.
    method TryLinks(accepts: Link -> bool)
      requires Registry(State())
      modifies this`links
      ensures Linked(old(State()), accepts, State())
    {
      ghost var w := State();
      for ci := 0 to |clients|
        invariant Progress(w, accepts, links)
        invariant forall c, si, consumer, source, output, input ::
                    c in clients[..ci] && Wanted(w, accepts, c, si, consumer, source, output, input) ==>
                    HasKey(links, MakeLink(c, si, consumer, source, output, input))
      {
        var c := clients[ci];
        ghost var before := links;
        for si := 0 to |sessions|
          invariant Progress(w, accepts, links) && before <= links
          invariant forall k: nat, consumer, source, output, input ::
                      k < si && Wanted(w, accepts, c, k, consumer, source, output, input) ==>
                      HasKey(links, MakeLink(c, k, consumer, source, output, input))
        {
          ghost var previous := links;
          var matches := ClientMatchesSession(sessions, c, si);
          if matches {
            LinkConsumers(si, c, accepts, w);
          }
          StillLinked(w, previous, links);
        }
        StillLinked(w, before, links);
        assert clients[..ci + 1] == clients[..ci] + [c];
      }
      assert clients[..|clients|] == clients;
    }

    // ---------- Callbacks ----------

    method OnClientAdded(id: nat, bound: bool)
      requires Inv(State()) && Fresh(State(), id)
      modifies this
      ensures if bound then forall a :: Next(old(State()), AddClient(id), a, State()) else State() == old(State())
      ensures Inv(State())
    {
      if bound {
        clients := clients + [Client(id, false, [])];
        NextKeepsInv(old(State()), AddClient(id), l => true, State());
      }
    }

    method OnNodeAdded(n: Node, accepts: Link -> bool)
      requires Inv(State()) && Fresh(State(), n.id)
      modifies this
      ensures Next(old(State()), AddNode(n), accepts, State()) && Inv(State())
    {
      nodes := nodes + [n];
      ApplyKeepsRegistry(old(State()), AddNode(n));
      TryLinks(accepts);
      NextKeepsInv(old(State()), AddNode(n), accepts, State());
    }

    method OnPortAdded(p: Port, accepts: Link -> bool)
      requires Inv(State()) && Fresh(State(), p.id)
      modifies this
      ensures Next(old(State()), AddPort(p), accepts, State()) && Inv(State())
    {
      ports := ports + [p];
      ApplyKeepsRegistry(old(State()), AddPort(p));
      TryLinks(accepts);
      NextKeepsInv(old(State()), AddPort(p), accepts, State());
    }

    method OnPermissions(ci: nat, index: nat, entries: seq<Permission>, accepts: Link -> bool)
      requires Inv(State()) && ci < |clients|
      modifies this
      ensures Next(old(State()), SetPermissions(ci, index, entries), accepts, State()) && Inv(State())
    {
      var c := clients[ci];
      var permissions := OverwritePermissions(c.permissions, index, entries);
      clients := clients[ci := Client(c.id, true, permissions)];
      ApplyKeepsRegistry(old(State()), SetPermissions(ci, index, entries));
      TryLinks(accepts);
      NextKeepsInv(old(State()), SetPermissions(ci, index, entries), accepts, State());
    }

    // registrable tells whether the message bus takes the session's object.
    method RegisterSession(path: string, registrable: bool) returns (created: bool)
      requires Inv(State())
      modifies this
      ensures created <==> registrable && forall s :: s in old(sessions) ==> s.path != path
      ensures if created then forall a :: Next(old(State()), CreateSession(path), a, State())
              else State() == old(State())
      ensures Inv(State())
    {
      for i := 0 to |sessions|
        invariant State() == old(State())
        invariant forall j :: 0 <= j < i ==> sessions[j].path != path
      {
        if sessions[i].path == path {
          assert sessions[i] in sessions;
          return false;
        }
      }
      if !registrable {
        return false;
      }
      sessions := sessions + [Session(path, [], false, false)];
      NextKeepsInv(old(State()), CreateSession(path), l => true, State());
      created := true;
    }

    method RemoveLinksForSession(si: nat)
      modifies this`links
      ensures links == WithoutSessionLinks(old(links), si)
    {
      var i := |links|;
      assert links[..i] == links;
      while i > 0
        invariant 0 <= i <= |old(links)| && i <= |links|
        invariant links == old(links)[..i] + WithoutSessionLinks(old(links)[i..], si)
      {
        BackwardStep(old(links), i, SessionsBut(si), links);
        if links[i - 1].session == si {
          links := RemoveAt(links, i - 1);
        }
        i := i - 1;
      }
      assert old(links)[0..] == old(links);
    }

    method RemoveLinksForObject(id: nat, client: bool)
      modifies this`links
      ensures links == Filter(old(links), Unrelated(id, client))
    {
      var i := |links|;
      assert links[..i] == links;
      while i > 0
        invariant 0 <= i <= |old(links)| && i <= |links|
        invariant links == old(links)[..i] + Filter(old(links)[i..], Unrelated(id, client))
      {
        BackwardStep(old(links), i, Unrelated(id, client), links);
        if !Unrelated(id, client)(links[i - 1]) {
          links := RemoveAt(links, i - 1);
        }
        i := i - 1;
      }
      assert old(links)[0..] == old(links);
    }

    method RemoveClients(id: nat)
      modifies this`clients, this`links
      ensures clients == Filter(old(clients), ClientsBut(id))
      ensures links == FilterIf(old(links), IsClient(old(State()), id), Unrelated(id, true))
    {
      var i := |clients|;
      ghost var hit := false;
      assert clients[..i] == clients;
      while i > 0
        invariant 0 <= i <= |old(clients)| && i <= |clients|
        invariant clients == old(clients)[..i] + Filter(old(clients)[i..], ClientsBut(id))
        invariant hit <==> exists k :: i <= k < |old(clients)| && old(clients)[k].id == id
        invariant links == FilterIf(old(links), hit, Unrelated(id, true))
      {
        BackwardStep(old(clients), i, ClientsBut(id), clients);
        if clients[i - 1].id == id {
          RemoveLinksForObject(id, true);
          FilterAgain(old(links), Unrelated(id, true));
          clients := RemoveAt(clients, i - 1);
          hit := true;
        }
        i := i - 1;
      }
      assert old(clients)[0..] == old(clients);
    }

    method RevokeSources(n: Node, ghost gone: seq<Node>, ghost before: seq<Session>)
      requires |sessions| == |before|
      requires forall k :: 0 <= k < |before| ==> sessions[k] == WithoutSources(before[k], gone, n.id)
      modifies this`sessions
      ensures |sessions| == |before|
      ensures forall k :: 0 <= k < |before| ==> sessions[k] == WithoutSources(before[k], [n] + gone, n.id)
    {
      for k := 0 to |sessions|
        invariant |sessions| == |before|
        invariant forall j :: 0 <= j < k ==> sessions[j] == WithoutSources(before[j], [n] + gone, n.id)
        invariant forall j :: k <= j < |before| ==> sessions[j] == WithoutSources(before[j], gone, n.id)
      {
        var sources := RemoveSourceForNode(sessions[k].sources, n);
        FilterTwice(before[k].sources, StillApproved(gone, n.id), OtherGeneration(n), StillApproved([n] + gone, n.id));
        sessions := sessions[k := sessions[k].(sources := sources)];
      }
    }

    // The backward walk has dealt with the nodes from position i on.
    ghost predicate NodesGone(id: nat, i: nat, before: World, hit: bool)
      reads this
    {
      && i <= |before.nodes| && i <= |nodes|
      && nodes == before.nodes[..i] + Filter(before.nodes[i..], NodesBut(id))
      && (hit <==> exists k :: i <= k < |before.nodes| && before.nodes[k].id == id)
      && links == FilterIf(before.links, hit, Unrelated(id, false))
      && |sessions| == |before.sessions|
      && forall k :: 0 <= k < |sessions| ==>
        sessions[k] == WithoutSources(before.sessions[k], before.nodes[i..], id)
    }

    method RemoveNodeAt(id: nat, i: nat, ghost before: World, ghost hit: bool) returns (ghost now: bool)
      requires NodesGone(id, i + 1, before, hit)
      modifies this`nodes, this`links, this`sessions
      ensures NodesGone(id, i, before, now)
    {
      BackwardStep(before.nodes, i + 1, NodesBut(id), nodes);
      var node := nodes[i];
      ghost var gone := before.nodes[i + 1..];
      assert before.nodes[i..] == [node] + gone;
      now := hit || node.id == id;
      if node.id == id {
        RemoveLinksForObject(id, false);
        FilterAgain(before.links, Unrelated(id, false));
        RevokeSources(node, gone, before.sessions);
        nodes := RemoveAt(nodes, i);
      } else {
        NothingRevoked(before.sessions, node, gone, id);
      }
    }

    method RemoveNodes(id: nat)
      modifies this`nodes, this`links, this`sessions
      ensures nodes == Filter(old(nodes), NodesBut(id))
      ensures links == FilterIf(old(links), IsNode(old(State()), id), Unrelated(id, false))
      ensures |sessions| == |old(sessions)|
      ensures forall k :: 0 <= k < |sessions| ==> sessions[k] == WithoutSources(old(sessions)[k], old(nodes), id)
    {
      ghost var before, hit := State(), false;
      var i: nat := |nodes|;
      assert nodes[..i] == nodes;
      NothingGone(sessions, id);
      while i > 0
        invariant NodesGone(id, i, before, hit)
      {
        i := i - 1;
        hit := RemoveNodeAt(id, i, before, hit);
      }
      assert before.nodes[0..] == before.nodes;
    }

    method RemovePorts(id: nat)
      modifies this`ports, this`links
      ensures ports == Filter(old(ports), PortsBut(id))
      ensures links == FilterIf(old(links), IsPort(old(State()), id), Unrelated(id, false))
    {
      var i := |ports|;
      ghost var hit := false;
      assert ports[..i] == ports;
      while i > 0
        invariant 0 <= i <= |old(ports)| && i <= |ports|
        invariant ports == old(ports)[..i] + Filter(old(ports)[i..], PortsBut(id))
        invariant hit <==> exists k :: i <= k < |old(ports)| && old(ports)[k].id == id
        invariant links == FilterIf(old(links), hit, Unrelated(id, false))
      {
        BackwardStep(old(ports), i, PortsBut(id), ports);
        if ports[i - 1].id == id {
          RemoveLinksForObject(id, false);
          FilterAgain(old(links), Unrelated(id, false));
          ports := RemoveAt(ports, i - 1);
          hit := true;
        }
        i := i - 1;
      }
      assert old(ports)[0..] == old(ports);
    }

    method OnGlobalRemoved(id: nat)
      requires Inv(State())
      modifies this
      ensures forall a :: Next(old(State()), RemoveGlobal(id), a, State())
      ensures Inv(State())
    {
      RemoveClients(id);
      RemoveNodes(id);
      RemovePorts(id);
      RemovalComposes(old(State()), id);
      assert sessions == Apply(old(State()), RemoveGlobal(id)).sessions;
      NextKeepsInv(old(State()), RemoveGlobal(id), l => true, State());
    }

    // Streams is None when the Start response omitted them.
    method UpdateSources(si: nat, streams: Option<seq<Source>>, accepts: Link -> bool)
      requires Inv(State()) && si < |sessions|
      modifies this
      ensures if streams.Some? then Next(old(State()), SetSources(si, streams.value), accepts, State())
              else State() == old(State())
      ensures Inv(State())
    {
      if streams.None? {
        return;
      }
      RemoveLinksForSession(si);
      sessions := sessions[si := sessions[si].(sources := [])];
      ghost var bare := State();
      for i := 0 to |streams.value|
        invariant si < |sessions| && State() == bare.(sessions := sessions)
        invariant sessions == bare.sessions[si := bare.sessions[si].(sources := FirstOfEach(streams.value[..i]))]
      {
        var known := SourceForId(sessions[si], streams.value[i].nodeId);
        assert streams.value[..i + 1][..i] == streams.value[..i];
        if known.None? {
          sessions := sessions[si := sessions[si].(sources := sessions[si].sources + [streams.value[i]])];
        }
      }
      assert streams.value[..|streams.value|] == streams.value;
      assert State() == Apply(old(State()), SetSources(si, streams.value));
      ApplyKeepsRegistry(old(State()), SetSources(si, streams.value));
      TryLinks(accepts);
      NextKeepsInv(old(State()), SetSources(si, streams.value), accepts, State());
    }

    method CloseHostSession(si: nat, reachable: bool)
      requires Inv(State()) && si < |sessions|
      modifies this
      ensures forall a :: Next(old(State()), RequestClose(si, reachable), a, State())
      ensures Inv(State())
    {
      RemoveLinksForSession(si);
      if Open(sessions[si]) && reachable {
        sessions := sessions[si := sessions[si].(closeRequested := true)];
      }
      NextKeepsInv(old(State()), RequestClose(si, reachable), l => true, State());
    }

    method OnHostSessionClosed(si: nat)
      requires Inv(State()) && si < |sessions|
      modifies this
      ensures forall a :: Next(old(State()), HostClosed(si), a, State())
      ensures Inv(State())
    {
      if sessions[si].closed {
        return;
      }
      RemoveLinksForSession(si);
      sessions := sessions[si := sessions[si].(closed := true)];
      NextKeepsInv(old(State()), HostClosed(si), l => true, State());
    }

    method OnLinkDestroyed(k: nat)
      requires Inv(State()) && k < |links|
      modifies this
      ensures forall a :: Next(old(State()), ProxyDestroyed(k), a, State())
      ensures Inv(State())
    {
      links := links[k := links[k].(live := false)];
      NextKeepsInv(old(State()), ProxyDestroyed(k), l => true, State());
    }

    method OnLinkRemoved(k: nat)
      requires Inv(State()) && k < |links|
      modifies this
      ensures forall a :: Next(old(State()), LinkRemoved(k), a, State())
      ensures Inv(State())
    {
      links := RemoveAt(links, k);
      NextKeepsInv(old(State()), LinkRemoved(k), l => true, State());
    }
  }

  lemma FilterAgain(links: seq<Link>, p: Link -> bool)
    ensures Filter(Filter(links, p), p) == Filter(links, p)
  {
    FilterTwice(links, p, p, p);
  }

  lemma NothingGone(sessions: seq<Session>, id: nat)
    ensures forall k :: 0 <= k < |sessions| ==> sessions[k] == WithoutSources(sessions[k], [], id)
  {
    forall k | 0 <= k < |sessions| ensures sessions[k] == WithoutSources(sessions[k], [], id) {
      FilterAll(sessions[k].sources, StillApproved([], id));
    }
  }

  // A node with another id revokes nothing.
  lemma NothingRevoked(sessions: seq<Session>, node: Node, gone: seq<Node>, id: nat)
    requires node.id != id
    ensures forall k :: 0 <= k < |sessions| ==>
              WithoutSources(sessions[k], gone, id) == WithoutSources(sessions[k], [node] + gone, id)
  {
    forall k | 0 <= k < |sessions|
      ensures WithoutSources(sessions[k], gone, id) == WithoutSources(sessions[k], [node] + gone, id)
    {
      FilterAgree(sessions[k].sources, StillApproved(gone, id), StillApproved([node] + gone, id));
    }
  }

  function FilterIf(links: seq<Link>, condition: bool, p: Link -> bool): seq<Link> {
    if condition then Filter(links, p) else links
  }

  // Removing by client, then by node, then by port removes exactly what the global took along.
  lemma RemovalComposes(w: World, id: nat)
    ensures FilterIf(FilterIf(FilterIf(w.links, IsClient(w, id), Unrelated(id, true)),
                              IsNode(w, id), Unrelated(id, false)),
                     IsPort(w, id), Unrelated(id, false))
            == Filter(w.links, Outliving(w, id))
  {
    var byClient := (l: Link) => !(IsClient(w, id) && l.client == id);
    var byNode := (l: Link) => byClient(l) && !(IsNode(w, id) && OfObject(l, id));
    Conditional(w.links, IsClient(w, id), Unrelated(id, true), l => true, byClient);
    FilterAll(w.links, l => true);
    Conditional(w.links, IsNode(w, id), Unrelated(id, false), byClient, byNode);
    Conditional(w.links, IsPort(w, id), Unrelated(id, false), byNode, Outliving(w, id));
  }

  lemma Conditional(links: seq<Link>, condition: bool, p: Link -> bool, q: Link -> bool, both: Link -> bool)
    requires forall l :: both(l) <==> q(l) && (condition ==> p(l))
    ensures FilterIf(Filter(links, q), condition, p) == Filter(links, both)
  {
    if condition {
      FilterTwice(links, q, p, both);
    } else {
      FilterAgree(links, q, both);
    }
  }

  function OtherGeneration(n: Node): Source -> bool { (x: Source) => !GenerationMatches(x, n) }

  method RemoveSourceForNode(sources: seq<Source>, n: Node) returns (kept: seq<Source>)
    ensures kept == Filter(sources, OtherGeneration(n))
  {
    kept := sources;
    var i := |kept|;
    while i > 0
      invariant 0 <= i <= |sources| && i <= |kept|
      invariant kept == sources[..i] + Filter(sources[i..], OtherGeneration(n))
    {
      BackwardStep(sources, i, OtherGeneration(n), kept);
      if GenerationMatches(kept[i - 1], n) {
        kept := RemoveAt(kept, i - 1);
      }
      i := i - 1;
    }
    assert sources[0..] == sources;
  }

  function Unrelated(id: nat, client: bool): Link -> bool {
    (l: Link) => if client then l.client != id else !OfObject(l, id)
  }

  // Appending links loses no key.
  lemma StillLinked(w: World, links: seq<Link>, longer: seq<Link>)
    requires links <= longer
    ensures forall l :: HasKey(links, l) ==> HasKey(longer, l)
  {
    forall l | HasKey(links, l) ensures HasKey(longer, l) {
      KeyStays(links, longer, l);
    }
  }
}
