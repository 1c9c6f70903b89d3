// The ScreenCast link manager: a registry of PipeWire globals, the portal
// sessions with their approved sources, and the links created between them.
module ScreenCastLinker {
  import opened Collections

  const ANY_ID: nat := 0xFFFF_FFFF
  const READ_BIT: nat := 256
  const INPUT_STREAM: string := "Stream/Input/Video"

  datatype Permission = Permission(id: nat, bits: nat)
  // Only clients whose access is "portal" are ever recorded.
  datatype Client = Client(id: nat, permissionsReceived: bool, permissions: seq<Permission>)
  datatype Node = Node(id: nat, clientId: nat, serial: nat, mediaClass: Option<string>, target: Option<nat>)
  datatype Port = Port(id: nat, nodeId: nat, isInput: bool, isOutput: bool)
  datatype Source = Source(nodeId: nat, serial: nat)
  datatype Session = Session(path: string, sources: seq<Source>, closeRequested: bool, closed: bool)
  // A link is live while its proxy exists; session is the position of its session.
  datatype Link = Link(live: bool, session: nat, client: nat, source: nat, consumer: nat,
                       output: nat, input: nat)
  datatype World = World(clients: seq<Client>, nodes: seq<Node>, ports: seq<Port>,
                         links: seq<Link>, sessions: seq<Session>)

  // ---------- The declarative eligibility rule ----------

  predicate CanRead(bits: nat) { bits / READ_BIT % 2 == 1 }

  // Position i holds the entry that a lookup of id finds.
  predicate FirstEntry(entries: seq<Permission>, id: nat, i: nat) {
    i < |entries| && entries[i].id == id && forall j :: 0 <= j < i ==> entries[j].id != id
  }

  ghost predicate Readable(c: Client, id: nat) {
    exists i: nat :: FirstEntry(c.permissions, id, i) && CanRead(c.permissions[i].bits)
  }

  ghost predicate Restricted(c: Client) {
    c.permissionsReceived && exists i: nat :: FirstEntry(c.permissions, ANY_ID, i) && c.permissions[i].bits == 0
  }

  predicate Open(s: Session) { !s.closed && !s.closeRequested }

  ghost predicate Approves(s: Session, id: nat) { exists x :: x in s.sources && x.nodeId == id }

  predicate GenerationMatches(x: Source, n: Node) {
    x.nodeId == n.id && (x.serial == 0 || n.serial == 0 || x.serial == n.serial)
  }

  ghost predicate Approved(s: Session, n: Node) { exists x :: x in s.sources && GenerationMatches(x, n) }

  // The client may read all of this session's sources and nothing that another
  // session approved and this one did not.
  ghost predicate Matches(sessions: seq<Session>, c: Client, si: nat)
    requires si < |sessions|
  {
    var s := sessions[si];
    && Restricted(c) && Open(s) && s.sources != []
    && (forall x :: x in s.sources ==> Readable(c, x.nodeId))
    && (forall k, x :: 0 <= k < |sessions| && k != si && x in sessions[k].sources ==>
          Approves(s, x.nodeId) || !Readable(c, x.nodeId))
  }

  predicate Targets(x: Source, target: nat) {
    target == x.nodeId || (x.serial != 0 && target == x.serial)
  }

  ghost predicate Present(nodes: seq<Node>, x: Source) {
    exists n :: n in nodes && GenerationMatches(x, n)
  }

  // A lone source serves every consumer; otherwise the consumer's target picks
  // the first named source whose node is present in the approved generation.
  ghost predicate Selects(nodes: seq<Node>, s: Session, consumer: Node, n: Node) {
    n in nodes &&
    if |s.sources| == 1 then GenerationMatches(s.sources[0], n)
    else consumer.target.Some? && exists i: nat :: PicksAt(nodes, s.sources, consumer.target.value, n, i)
  }

  ghost predicate PicksAt(nodes: seq<Node>, sources: seq<Source>, target: nat, n: Node, i: nat) {
    && i < |sources| && Targets(sources[i], target) && GenerationMatches(sources[i], n)
    && forall j :: 0 <= j < i && Targets(sources[j], target) ==> !Present(nodes, sources[j])
  }

  ghost predicate Eligible(w: World, c: Client, si: nat, consumer: Node, source: Node, output: Port, input: Port) {
    && c in w.clients && si < |w.sessions| && Matches(w.sessions, c, si)
    && consumer in w.nodes && consumer.clientId == c.id && consumer.mediaClass == Some(INPUT_STREAM)
    && Selects(w.nodes, w.sessions[si], consumer, source)
    && output in w.ports && output.isOutput && output.nodeId == source.id
    && input in w.ports && input.isInput && input.nodeId == consumer.id
  }

  function MakeLink(c: Client, si: nat, consumer: Node, source: Node, output: Port, input: Port): Link {
    Link(true, si, c.id, source.id, consumer.id, output.id, input.id)
  }

  // ---------- The whole-run invariant ----------

  predicate SameKey(a: Link, b: Link) {
    a.session == b.session && a.output == b.output && a.input == b.input
  }

  ghost predicate HasKey(links: seq<Link>, l: Link) {
    exists k :: 0 <= k < |links| && links[k].live && SameKey(links[k], l)
  }

  predicate NotRivals(a: Link, b: Link) { a.live && b.live ==> !SameKey(a, b) }

  ghost predicate KeysUnique(links: seq<Link>) { Pairwise(links, NotRivals) }

  // These registered objects carry link l.
  ghost predicate Carries(w: World, l: Link, c: Client, consumer: Node, source: Node, output: Port, input: Port) {
    && l.session < |w.sessions| && Open(w.sessions[l.session]) && Approved(w.sessions[l.session], source)
    && c in w.clients && c.id == l.client
    && consumer in w.nodes && consumer.id == l.consumer && consumer.clientId == c.id
    && consumer.mediaClass == Some(INPUT_STREAM)
    && source in w.nodes && source.id == l.source
    && output in w.ports && output.id == l.output && output.isOutput && output.nodeId == source.id
    && input in w.ports && input.id == l.input && input.isInput && input.nodeId == consumer.id
  }

  ghost predicate Sound(w: World, l: Link) {
    l.live ==> exists c, consumer, source, output, input :: Carries(w, l, c, consumer, source, output, input)
  }

  predicate OtherClient(a: Client, b: Client) { a.id != b.id }
  predicate OtherNode(a: Node, b: Node) { a.id != b.id }
  predicate OtherPort(a: Port, b: Port) { a.id != b.id }
  predicate OtherSession(a: Session, b: Session) { a.path != b.path }
  predicate OtherSource(a: Source, b: Source) { a.nodeId != b.nodeId }

  ghost predicate Registry(w: World) {
    && Pairwise(w.clients, OtherClient) && Pairwise(w.nodes, OtherNode) && Pairwise(w.ports, OtherPort)
    && Pairwise(w.sessions, OtherSession)
    && (forall s :: s in w.sessions ==> Pairwise(s.sources, OtherSource))
  }

  ghost predicate Inv(w: World) {
    && Registry(w)
    && KeysUnique(w.links)
    && (forall l :: l in w.links ==> Sound(w, l))
  }

  // ---------- One linking pass ----------

  // An eligible tuple for which the server would create the link.
  ghost predicate Wanted(w: World, accepts: Link -> bool, c: Client, si: nat, consumer: Node, source: Node,
                         output: Port, input: Port) {
    Eligible(w, c, si, consumer, source, output, input) && accepts(MakeLink(c, si, consumer, source, output, input))
  }

  // l comes from an eligible tuple that the server accepted and that was not linked yet.
  ghost predicate Justified(w: World, accepts: Link -> bool, l: Link) {
    && accepts(l) && !HasKey(w.links, l)
    && exists c, consumer, source, output, input ::
         Eligible(w, c, l.session, consumer, source, output, input)
         && l == MakeLink(c, l.session, consumer, source, output, input)
  }

  // The pass changes only links, only appends justified links, never repeats a
  // key, and leaves a live link for every eligible tuple the server accepts.
  ghost predicate Linked(w: World, accepts: Link -> bool, w': World) {
    && w' == w.(links := w'.links)
    && w.links <= w'.links
    && (forall k :: |w.links| <= k < |w'.links| ==> Justified(w, accepts, w'.links[k]))
    && (KeysUnique(w.links) ==> KeysUnique(w'.links))
    && (forall c, si, consumer, source, output, input ::
          Wanted(w, accepts, c, si, consumer, source, output, input) ==>
          HasKey(w'.links, MakeLink(c, si, consumer, source, output, input)))
  }

  // A second pass after a fully successful one adds nothing.
  lemma SecondPassAddsNothing(w: World, w': World, w'': World, accepts: Link -> bool, again: Link -> bool)
    requires Linked(w, accepts, w') && (forall l :: accepts(l))
    requires Linked(w', again, w'')
    ensures w'' == w'
  {
    if |w''.links| > |w'.links| {
      var l := w''.links[|w'.links|];
      assert Justified(w', again, l);
      var c, consumer, source, output, input :|
        Eligible(w', c, l.session, consumer, source, output, input)
        && l == MakeLink(c, l.session, consumer, source, output, input);
      assert Wanted(w, accepts, c, l.session, consumer, source, output, input);
      assert false;
    }
    assert w''.links == w'.links;
  }

  lemma LinkedKeepsInv(w: World, accepts: Link -> bool, w': World)
    requires Inv(w) && Linked(w, accepts, w')
    ensures Inv(w')
  {
    forall l | l in w'.links ensures Sound(w', l) {
      var k :| 0 <= k < |w'.links| && w'.links[k] == l;
      if k < |w.links| {
        assert l == w.links[k] && Sound(w, l);
        if l.live {
          var c, consumer, source, output, input :| Carries(w, l, c, consumer, source, output, input);
          assert Carries(w', l, c, consumer, source, output, input);
        }
      } else {
        assert Justified(w, accepts, l);
        var c, consumer, source, output, input :|
          Eligible(w, c, l.session, consumer, source, output, input)
          && l == MakeLink(c, l.session, consumer, source, output, input);
        SelectedIsApproved(w.nodes, w.sessions[l.session], consumer, source);
        assert Carries(w', l, c, consumer, source, output, input);
      }
    }
  }

  lemma SelectedIsApproved(nodes: seq<Node>, s: Session, consumer: Node, n: Node)
    requires Selects(nodes, s, consumer, n)
    ensures Approved(s, n)
  {
    if |s.sources| == 1 {
      assert s.sources[0] in s.sources;
    } else {
      var i: nat :| PicksAt(nodes, s.sources, consumer.target.value, n, i);
      assert s.sources[i] in s.sources;
    }
  }

  // ---------- Callbacks as steps ----------

  datatype Event =
    | AddClient(id: nat)
    | AddNode(node: Node)
    | AddPort(port: Port)
    | RemoveGlobal(gone: nat)
    | SetPermissions(client: nat, index: nat, entries: seq<Permission>)
    | CreateSession(path: string)
    | SetSources(started: nat, streams: seq<Source>)
    | RequestClose(closing: nat, reachable: bool)
    | HostClosed(ended: nat)
    | ProxyDestroyed(link: nat)
    | LinkRemoved(link: nat)

  predicate IsClient(w: World, id: nat) { exists c :: c in w.clients && c.id == id }
  predicate IsNode(w: World, id: nat) { exists n :: n in w.nodes && n.id == id }
  predicate IsPort(w: World, id: nat) { exists p :: p in w.ports && p.id == id }

  // The server never reuses the id of a global that is still registered.
  predicate Fresh(w: World, id: nat) { !IsClient(w, id) && !IsNode(w, id) && !IsPort(w, id) }

  predicate Enabled(w: World, e: Event) {
    match e
    case AddClient(id) => Fresh(w, id)
    case AddNode(n) => Fresh(w, n.id)
    case AddPort(p) => Fresh(w, p.id)
    case SetPermissions(ci, _, _) => ci < |w.clients|
    case SetSources(si, _) => si < |w.sessions|
    case RequestClose(si, _) => si < |w.sessions|
    case HostClosed(si) => si < |w.sessions|
    case ProxyDestroyed(k) => k < |w.links|
    case LinkRemoved(k) => k < |w.links|
    case RemoveGlobal(_) => true
    case CreateSession(_) => true
  }

  // Entries from index on are overwritten; index 0 starts over and a gap is filled with zero entries.
  function MergePermissions(current: seq<Permission>, index: nat, entries: seq<Permission>): seq<Permission> {
    var kept := if index == 0 then [] else current;
    var padded := if index > |kept| then kept + seq(index - |kept|, _ => Permission(0, 0)) else kept;
    padded[..index] + entries + (if index + |entries| < |padded| then padded[index + |entries|..] else [])
  }

  // The streams of a Start response, the first of each node id only.
  function FirstOfEach(streams: seq<Source>): seq<Source> {
    if streams == [] then []
    else
      var before := FirstOfEach(streams[..|streams| - 1]);
      var last := streams[|streams| - 1];
      if exists x :: x in before && x.nodeId == last.nodeId then before else before + [last]
  }

  predicate OfObject(l: Link, id: nat) {
    l.source == id || l.consumer == id || l.output == id || l.input == id
  }

  predicate Outlives(w: World, id: nat, l: Link) {
    !(IsClient(w, id) && l.client == id) && !((IsNode(w, id) || IsPort(w, id)) && OfObject(l, id))
  }

  // The removed nodes named id take the approvals of their own generation with them.
  predicate Revoked(nodes: seq<Node>, id: nat, x: Source) {
    exists n :: n in nodes && n.id == id && GenerationMatches(x, n)
  }

  function ClientsBut(id: nat): Client -> bool { (c: Client) => c.id != id }
  function NodesBut(id: nat): Node -> bool { (n: Node) => n.id != id }
  function PortsBut(id: nat): Port -> bool { (p: Port) => p.id != id }
  function SessionsBut(si: nat): Link -> bool { (l: Link) => l.session != si }
  function Outliving(w: World, id: nat): Link -> bool { (l: Link) => Outlives(w, id, l) }
  function StillApproved(nodes: seq<Node>, id: nat): Source -> bool { (x: Source) => !Revoked(nodes, id, x) }

  function WithoutSources(s: Session, nodes: seq<Node>, id: nat): Session {
    s.(sources := Filter(s.sources, StillApproved(nodes, id)))
  }

  function WithoutSessionLinks(links: seq<Link>, si: nat): seq<Link> {
    Filter(links, SessionsBut(si))
  }

  // What a callback does before any linking pass.
  function Apply(w: World, e: Event): World
    requires Enabled(w, e)
  {
    match e
    case AddClient(id) => w.(clients := w.clients + [Client(id, false, [])])
    case AddNode(n) => w.(nodes := w.nodes + [n])
    case AddPort(p) => w.(ports := w.ports + [p])
    case RemoveGlobal(id) =>
      World(Filter(w.clients, ClientsBut(id)), Filter(w.nodes, NodesBut(id)),
            Filter(w.ports, PortsBut(id)), Filter(w.links, Outliving(w, id)),
            seq(|w.sessions|, k requires 0 <= k < |w.sessions| => WithoutSources(w.sessions[k], w.nodes, id)))
    case SetPermissions(ci, index, entries) =>
      var c := w.clients[ci];
      w.(clients := w.clients[ci := Client(c.id, true, MergePermissions(c.permissions, index, entries))])
    case CreateSession(path) =>
      if exists s :: s in w.sessions && s.path == path then w
      else w.(sessions := w.sessions + [Session(path, [], false, false)])
    case SetSources(si, streams) =>
      w.(links := WithoutSessionLinks(w.links, si),
         sessions := w.sessions[si := w.sessions[si].(sources := FirstOfEach(streams))])
    case RequestClose(si, reachable) =>
      var s := w.sessions[si];
      w.(links := WithoutSessionLinks(w.links, si),
         sessions := if Open(s) && reachable then w.sessions[si := s.(closeRequested := true)] else w.sessions)
    case HostClosed(si) =>
      if w.sessions[si].closed then w
      else w.(links := WithoutSessionLinks(w.links, si),
              sessions := w.sessions[si := w.sessions[si].(closed := true)])
    case ProxyDestroyed(k) => w.(links := w.links[k := w.links[k].(live := false)])
    case LinkRemoved(k) => w.(links := RemoveAt(w.links, k))
  }

  predicate TriesLinks(e: Event) {
    e.AddNode? || e.AddPort? || e.SetPermissions? || e.SetSources?
  }

  ghost predicate Next(w: World, e: Event, accepts: Link -> bool, w': World) {
    && Enabled(w, e)
    && if TriesLinks(e) then Linked(Apply(w, e), accepts, w') else w' == Apply(w, e)
  }

  const EMPTY: World := World([], [], [], [], [])

  // ---------- Every step keeps the invariant ----------

  lemma {:induction false} FirstOfEachDiffer(streams: seq<Source>)
    ensures Pairwise(FirstOfEach(streams), OtherSource)
  {
    if streams != [] {
      FirstOfEachDiffer(streams[..|streams| - 1]);
    }
  }

  lemma RemovalKeepsRegistry(w: World, id: nat)
    requires Registry(w)
    ensures Registry(Apply(w, RemoveGlobal(id)))
  {
    FilterPairwise(w.clients, ClientsBut(id), OtherClient);
    FilterPairwise(w.nodes, NodesBut(id), OtherNode);
    FilterPairwise(w.ports, PortsBut(id), OtherPort);
    forall s | s in w.sessions ensures Pairwise(WithoutSources(s, w.nodes, id).sources, OtherSource) {
      FilterPairwise(s.sources, StillApproved(w.nodes, id), OtherSource);
    }
  }

  lemma ApplyKeepsRegistry(w: World, e: Event)
    requires Registry(w) && Enabled(w, e)
    ensures Registry(Apply(w, e))
  {
    match e
    case RemoveGlobal(id) => RemovalKeepsRegistry(w, id);
    case SetSources(si, streams) => FirstOfEachDiffer(streams);
    case _ =>
  }

  lemma SurvivesRemoval(w: World, id: nat, l: Link)
    requires Inv(w) && l.live && l in w.links && l in Apply(w, RemoveGlobal(id)).links
    ensures Sound(Apply(w, RemoveGlobal(id)), l)
  {
    var w' := Apply(w, RemoveGlobal(id));
    assert Sound(w, l);
    var c, consumer, source, output, input :| Carries(w, l, c, consumer, source, output, input);
    FilterMember(w.links, Outliving(w, id), l);
    assert Outlives(w, id, l);
    FilterMember(w.clients, ClientsBut(id), c);
    FilterMember(w.nodes, NodesBut(id), consumer);
    FilterMember(w.nodes, NodesBut(id), source);
    FilterMember(w.ports, PortsBut(id), output);
    FilterMember(w.ports, PortsBut(id), input);
    assert Approved(w'.sessions[l.session], source) by {
      var s := w.sessions[l.session];
      var x :| x in s.sources && GenerationMatches(x, source);
      FilterMember(s.sources, StillApproved(w.nodes, id), x);
    }
    assert Carries(w', l, c, consumer, source, output, input);
  }

  lemma SurvivesPermissions(w: World, e: Event, l: Link)
    requires Inv(w) && e.SetPermissions? && Enabled(w, e) && l.live && l in w.links
    ensures Sound(Apply(w, e), l)
  {
    var w' := Apply(w, e);
    assert Sound(w, l);
    var c, consumer, source, output, input :| Carries(w, l, c, consumer, source, output, input);
    var k :| 0 <= k < |w.clients| && w.clients[k] == c;
    assert w'.clients[k] in w'.clients;
    assert Carries(w', l, w'.clients[k], consumer, source, output, input);
  }

  // Nothing is unregistered and the link's own session stays as it is.
  ghost predicate Grows(w: World, w': World, si: nat) {
    && (forall c :: c in w.clients ==> c in w'.clients)
    && (forall n :: n in w.nodes ==> n in w'.nodes)
    && (forall p :: p in w.ports ==> p in w'.ports)
    && si < |w.sessions| <= |w'.sessions| && w'.sessions[si] == w.sessions[si]
  }

  lemma SurvivesGrowth(w: World, w': World, l: Link)
    requires Sound(w, l) && l.live && (l.session < |w.sessions| ==> Grows(w, w', l.session))
    ensures Sound(w', l)
  {
    var c, consumer, source, output, input :| Carries(w, l, c, consumer, source, output, input);
    assert Carries(w', l, c, consumer, source, output, input);
  }

  // A link of w that survives a callback is still carried afterwards.
  lemma SurvivorIsSound(w: World, e: Event, l: Link)
    requires Inv(w) && Enabled(w, e)
    requires l.live && l in w.links && l in Apply(w, e).links
    ensures Sound(Apply(w, e), l)
  {
    assert Sound(w, l);
    match e
    case RemoveGlobal(id) => SurvivesRemoval(w, id, l);
    case SetPermissions(_, _, _) => SurvivesPermissions(w, e, l);
    case SetSources(si, _) => FilterMembers(w.links, SessionsBut(si)); SurvivesGrowth(w, Apply(w, e), l);
    case RequestClose(si, _) => FilterMembers(w.links, SessionsBut(si)); SurvivesGrowth(w, Apply(w, e), l);
    case HostClosed(si) =>
      if !w.sessions[si].closed {
        FilterMembers(w.links, SessionsBut(si));
      }
      SurvivesGrowth(w, Apply(w, e), l);
    case _ => SurvivesGrowth(w, Apply(w, e), l);
  }

  lemma LinksSurvive(w: World, e: Event)
    requires Inv(w) && Enabled(w, e)
    ensures KeysUnique(Apply(w, e).links)
    ensures forall l :: l in Apply(w, e).links && l.live ==> l in w.links
  {
    match e
    case RemoveGlobal(id) =>
      FilterPairwise(w.links, Outliving(w, id), NotRivals);
      FilterMembers(w.links, Outliving(w, id));
    case SetSources(si, _) =>
      FilterPairwise(w.links, SessionsBut(si), NotRivals);
      FilterMembers(w.links, SessionsBut(si));
    case RequestClose(si, _) =>
      FilterPairwise(w.links, SessionsBut(si), NotRivals);
      FilterMembers(w.links, SessionsBut(si));
    case HostClosed(si) =>
      FilterPairwise(w.links, SessionsBut(si), NotRivals);
      FilterMembers(w.links, SessionsBut(si));
    case _ =>
  }

  lemma NextKeepsInv(w: World, e: Event, accepts: Link -> bool, w': World)
    requires Inv(w) && Next(w, e, accepts, w')
    ensures Inv(w')
  {
    var mid := Apply(w, e);
    ApplyKeepsRegistry(w, e);
    LinksSurvive(w, e);
    forall l | l in mid.links ensures Sound(mid, l) {
      if l.live {
        SurvivorIsSound(w, e, l);
      }
    }
    if TriesLinks(e) {
      LinkedKeepsInv(mid, accepts, w');
    }
  }

  // A sequence of callbacks from the empty world, each with the server's answers to its pass.
  ghost predicate IsRun(run: seq<World>, events: seq<Event>, accepts: seq<Link -> bool>) {
    && |run| == |events| + 1 && |accepts| == |events| && run[0] == EMPTY
    && forall i :: 0 <= i < |events| ==> Next(run[i], events[i], accepts[i], run[i + 1])
  }

  // In every run of callbacks, every world reached satisfies the invariant.
  lemma {:induction false} EveryRunIsSound(run: seq<World>, events: seq<Event>, accepts: seq<Link -> bool>)
    requires IsRun(run, events, accepts)
    ensures forall w :: w in run ==> Inv(w)
  {
    if |events| > 0 {
      var n := |events| - 1;
      EveryRunIsSound(run[..n + 1], events[..n], accepts[..n]);
      assert run[n] in run[..n + 1];
      NextKeepsInv(run[n], events[n], accepts[n], run[n + 1]);
      assert run == run[..n + 1] + [run[n + 1]];
    }
  }
}
