// A link is created where its tuple is eligible, but eligibility may end while the
// link lives on. For every callback: exactly when a surviving link stays eligible.
module ScreenCastEligibility {
  import opened Collections
  import opened ScreenCastLinker

  // The tuple that l joins is still one that a linking pass would link.
  ghost predicate StillEligible(w: World, l: Link) {
    exists c, consumer, source, output, input ::
      Eligible(w, c, l.session, consumer, source, output, input)
      && l == MakeLink(c, l.session, consumer, source, output, input)
  }

  // ---------- The guards, read off before the callback ----------

  // The new node does not stand for a source that the consumer's target names
  // ahead of the link's own.
  ghost predicate NotOvertaken(w: World, n: Node, l: Link)
    requires l.session < |w.sessions|
  {
    var sources := w.sessions[l.session].sources;
    |sources| == 1
    || forall consumer, i, j :: consumer in w.nodes && consumer.id == l.consumer && consumer.target.Some?
         && 0 <= j < i < |sources| && sources[i].nodeId == l.source && Targets(sources[j], consumer.target.value)
         ==> !GenerationMatches(sources[j], n)
  }

  // The new sources of another session hold nothing that the link's client may
  // read and the link's session did not approve.
  ghost predicate NothingForeign(w: World, streams: seq<Source>, l: Link)
    requires l.session < |w.sessions|
  {
    forall c, x :: c in w.clients && c.id == l.client && x in FirstOfEach(streams) ==>
      Approves(w.sessions[l.session], x.nodeId) || !Readable(c, x.nodeId)
  }

  // The link's session does not lose an approval that another session keeps.
  ghost predicate NotOutlasted(w: World, id: nat, l: Link)
    requires l.session < |w.sessions|
  {
    forall x, k, y :: x in w.sessions[l.session].sources && x.nodeId == id && Revoked(w.nodes, id, x)
      && 0 <= k < |w.sessions| && k != l.session && y in w.sessions[k].sources && y.nodeId == id
      ==> Revoked(w.nodes, id, y)
  }

  ghost predicate KeepsEligible(w: World, e: Event, l: Link)
    requires Enabled(w, e) && l.session < |w.sessions|
  {
    match e
    case AddNode(n) => NotOvertaken(w, n, l)
    case SetPermissions(ci, _, _) =>
      w.clients[ci].id != l.client || Matches(w.sessions, Apply(w, e).clients[ci], l.session)
    case SetSources(_, streams) => NothingForeign(w, streams, l)
    case RemoveGlobal(id) => NotOutlasted(w, id, l)
    case _ => true
  }

  // ---------- Objects are known by their ids ----------

  lemma OneClient(w: World, c: Client, d: Client)
    requires Registry(w) && c in w.clients && d in w.clients && c.id == d.id
    ensures c == d
  {
    var i :| 0 <= i < |w.clients| && w.clients[i] == c;
    var j :| 0 <= j < |w.clients| && w.clients[j] == d;
    assert i < j ==> OtherClient(w.clients[i], w.clients[j]);
    assert j < i ==> OtherClient(w.clients[j], w.clients[i]);
  }

  lemma OneNode(w: World, m: Node, n: Node)
    requires Registry(w) && m in w.nodes && n in w.nodes && m.id == n.id
    ensures m == n
  {
    var i :| 0 <= i < |w.nodes| && w.nodes[i] == m;
    var j :| 0 <= j < |w.nodes| && w.nodes[j] == n;
    assert i < j ==> OtherNode(w.nodes[i], w.nodes[j]);
    assert j < i ==> OtherNode(w.nodes[j], w.nodes[i]);
  }

  lemma OnePort(w: World, p: Port, q: Port)
    requires Registry(w) && p in w.ports && q in w.ports && p.id == q.id
    ensures p == q
  {
    var i :| 0 <= i < |w.ports| && w.ports[i] == p;
    var j :| 0 <= j < |w.ports| && w.ports[j] == q;
    assert i < j ==> OtherPort(w.ports[i], w.ports[j]);
    assert j < i ==> OtherPort(w.ports[j], w.ports[i]);
  }

  lemma OneSource(s: Session, x: Source, y: Source)
    requires Pairwise(s.sources, OtherSource) && x in s.sources && y in s.sources && x.nodeId == y.nodeId
    ensures x == y
  {
    var i :| 0 <= i < |s.sources| && s.sources[i] == x;
    var j :| 0 <= j < |s.sources| && s.sources[j] == y;
    assert i < j ==> OtherSource(s.sources[i], s.sources[j]);
    assert j < i ==> OtherSource(s.sources[j], s.sources[i]);
  }

  // The registered objects of a link decide whether it is eligible.
  lemma DecidedByObjects(w: World, l: Link, c: Client, consumer: Node, source: Node, output: Port, input: Port)
    requires Registry(w) && l == MakeLink(c, l.session, consumer, source, output, input)
    requires c in w.clients && consumer in w.nodes && source in w.nodes && output in w.ports && input in w.ports
    ensures StillEligible(w, l) <==> Eligible(w, c, l.session, consumer, source, output, input)
  {
    if c', consumer', source', output', input' :|
      Eligible(w, c', l.session, consumer', source', output', input')
      && l == MakeLink(c', l.session, consumer', source', output', input')
    {
      OneClient(w, c, c');
      OneNode(w, consumer, consumer');
      OneNode(w, source, source');
      OnePort(w, output, output');
      OnePort(w, input, input');
    }
  }

  // Only the matching of client and session, and the selection of the source, can be lost.
  lemma DecidedByMatchAndPick(
    w: World, w': World, l: Link, c: Client, c': Client, consumer: Node, source: Node, output: Port, input: Port)
    requires Registry(w') && Eligible(w, c, l.session, consumer, source, output, input)
    requires l == MakeLink(c, l.session, consumer, source, output, input)
    requires c' in w'.clients && c'.id == c.id && consumer in w'.nodes && source in w'.nodes
    requires output in w'.ports && input in w'.ports && l.session < |w'.sessions|
    ensures StillEligible(w', l) <==>
            Matches(w'.sessions, c', l.session) && Selects(w'.nodes, w'.sessions[l.session], consumer, source)
  {
    DecidedByObjects(w', l, c', consumer, source, output, input);
  }

  // ---------- Callback by callback ----------

  lemma AddNodeExact(w: World, n: Node, s: Session, consumer: Node, source: Node, l: Link)
    requires Registry(w) && Fresh(w, n.id) && l.session < |w.sessions| && s == w.sessions[l.session]
    requires consumer in w.nodes && consumer.id == l.consumer && source in w.nodes && source.id == l.source
    requires Selects(w.nodes, s, consumer, source)
    ensures Selects(w.nodes + [n], s, consumer, source) <==> NotOvertaken(w, n, l)
  {
    if |s.sources| != 1 {
      var target := consumer.target.value;
      var i: nat :| PicksAt(w.nodes, s.sources, target, source, i);
      assert s in w.sessions;
      assert forall j :: 0 <= j < |s.sources| && s.sources[j].nodeId == source.id ==> j == i by {
        assert forall j :: 0 <= j < i ==> OtherSource(s.sources[j], s.sources[i]);
        assert forall j :: i < j < |s.sources| ==> OtherSource(s.sources[i], s.sources[j]);
      }
      forall m | m in w.nodes && m.id == l.consumer ensures m == consumer {
        OneNode(w, m, consumer);
      }
      PresentMore(w.nodes, n, s.sources, target, i);
      assert PicksAt(w.nodes + [n], s.sources, target, source, i) <==> NotOvertaken(w, n, l);
    }
  }

  lemma PresentMore(nodes: seq<Node>, n: Node, sources: seq<Source>, target: nat, i: nat)
    ensures forall x :: Present(nodes + [n], x) <==> Present(nodes, x) || GenerationMatches(x, n)
  {
    forall x ensures Present(nodes + [n], x) <==> Present(nodes, x) || GenerationMatches(x, n) {
      assert n in nodes + [n];
      if m :| m in nodes && GenerationMatches(x, m) {
        assert m in nodes + [n];
      }
    }
  }

  lemma SetSourcesExact(w: World, si: nat, streams: seq<Source>, c: Client, l: Link)
    requires Registry(w) && si < |w.sessions| && l.session < |w.sessions| && si != l.session
    requires c in w.clients && c.id == l.client && Matches(w.sessions, c, l.session)
    ensures Matches(Apply(w, SetSources(si, streams)).sessions, c, l.session) <==> NothingForeign(w, streams, l)
  {
    var sessions := Apply(w, SetSources(si, streams)).sessions;
    forall d | d in w.clients && d.id == l.client ensures d == c {
      OneClient(w, c, d);
    }
    assert sessions[si].sources == FirstOfEach(streams);
    assert forall k :: 0 <= k < |sessions| && k != si ==> sessions[k] == w.sessions[k];
  }

  // Where a kept element lands, only what stood before it stands before it.
  lemma {:induction false} FilterPosition(s: seq<Source>, p: Source -> bool, i: nat) returns (at: nat)
    requires i < |s| && p(s[i])
    ensures at < |Filter(s, p)| && Filter(s, p)[at] == s[i]
    ensures forall k :: 0 <= k < at ==> Filter(s, p)[k] in s[..i]
  {
    if i == 0 {
      at := 0;
    } else {
      var inner := FilterPosition(s[1..], p, i - 1);
      var rest := Filter(s[1..], p);
      at := if p(s[0]) then inner + 1 else inner;
      assert s[..i] == [s[0]] + s[1..][..i - 1];
      forall k | 0 <= k < at ensures Filter(s, p)[k] in s[..i] {
        assert p(s[0]) && k > 0 ==> Filter(s, p)[k] == rest[k - 1];
        assert !p(s[0]) ==> Filter(s, p)[k] == rest[k];
      }
    }
  }

  // Removing another node never takes a pick away.
  lemma RemovalKeepsPick(w: World, id: nat, si: nat, consumer: Node, source: Node)
    requires Registry(w) && si < |w.sessions| && source.id != id
    requires Selects(w.nodes, w.sessions[si], consumer, source)
    ensures var w' := Apply(w, RemoveGlobal(id)); Selects(w'.nodes, w'.sessions[si], consumer, source)
  {
    var w' := Apply(w, RemoveGlobal(id));
    var s, keep := w.sessions[si], StillApproved(w.nodes, id);
    FilterMember(w.nodes, NodesBut(id), source);
    var i := PickedAt(w.nodes, s, consumer, source);
    assert keep(s.sources[i]);
    var at := FilterPosition(s.sources, keep, i);
    var kept := w'.sessions[si].sources;
    if |s.sources| == 1 {
      assert |kept| <= 1 by { FilterMembers(s.sources, keep); }
    } else if |kept| > 1 {
      var target := consumer.target.value;
      forall k | 0 <= k < at && Targets(kept[k], target) ensures !Present(w'.nodes, kept[k]) {
        assert kept[k] in s.sources[..i];
        var j :| 0 <= j < i && s.sources[j] == kept[k];
        FilterMembers(w.nodes, NodesBut(id));
      }
      assert PicksAt(w'.nodes, kept, target, source, at);
    }
  }

  lemma PickedAt(nodes: seq<Node>, s: Session, consumer: Node, source: Node) returns (i: nat)
    requires Selects(nodes, s, consumer, source)
    ensures i < |s.sources| && GenerationMatches(s.sources[i], source)
    ensures if |s.sources| == 1 then i == 0
            else consumer.target.Some? && PicksAt(nodes, s.sources, consumer.target.value, source, i)
  {
    if |s.sources| == 1 {
      i := 0;
    } else {
      i :| PicksAt(nodes, s.sources, consumer.target.value, source, i);
    }
  }

  // What the session still approves after a removal.
  lemma ApprovalsLeft(w: World, id: nat, s: Session, x: nat)
    ensures Approves(WithoutSources(s, w.nodes, id), x) <==>
            exists y :: y in s.sources && y.nodeId == x && !Revoked(w.nodes, id, y)
  {
    FilterMembers(s.sources, StillApproved(w.nodes, id));
  }

  lemma RemovalMatchExact(w: World, id: nat, c: Client, source: Node, l: Link)
    requires Registry(w) && l.session < |w.sessions| && Matches(w.sessions, c, l.session)
    requires source.id != id && Approved(w.sessions[l.session], source)
    ensures Matches(Apply(w, RemoveGlobal(id)).sessions, c, l.session) <==> NotOutlasted(w, id, l)
  {
    var sessions := Apply(w, RemoveGlobal(id)).sessions;
    var s, s' := w.sessions[l.session], sessions[l.session];
    var x :| x in s.sources && GenerationMatches(x, source);
    FilterMembers(s.sources, StillApproved(w.nodes, id));
    assert x in s'.sources;
    forall k | 0 <= k < |sessions|
      ensures forall y :: y in sessions[k].sources <==> y in w.sessions[k].sources && !Revoked(w.nodes, id, y)
    {
      FilterMembers(w.sessions[k].sources, StillApproved(w.nodes, id));
    }
    if NotOutlasted(w, id, l) {
      ApprovalsSuffice(w, id, c, l);
    } else {
      ApprovalIsMissed(w, id, c, l);
    }
  }

  ghost predicate Survives(w: World, id: nat, k: nat, y: Source)
    requires k < |w.sessions|
  {
    y in w.sessions[k].sources && !Revoked(w.nodes, id, y)
  }

  lemma ApprovalsSuffice(w: World, id: nat, c: Client, l: Link)
    requires Registry(w) && l.session < |w.sessions| && Matches(w.sessions, c, l.session) && NotOutlasted(w, id, l)
    ensures forall k, y :: 0 <= k < |w.sessions| && k != l.session && Survives(w, id, k, y) ==>
      Approves(WithoutSources(w.sessions[l.session], w.nodes, id), y.nodeId) || !Readable(c, y.nodeId)
  {
    var s := w.sessions[l.session];
    forall k, y | 0 <= k < |w.sessions| && k != l.session && Survives(w, id, k, y) && Readable(c, y.nodeId)
      ensures Approves(WithoutSources(s, w.nodes, id), y.nodeId)
    {
      ApprovalsLeft(w, id, s, y.nodeId);
      var x :| x in s.sources && x.nodeId == y.nodeId;
      assert y.nodeId != id ==> !Revoked(w.nodes, id, x);
      assert y.nodeId == id ==> !Revoked(w.nodes, id, x);
    }
  }

  lemma ApprovalIsMissed(w: World, id: nat, c: Client, l: Link)
    requires Registry(w) && l.session < |w.sessions| && Matches(w.sessions, c, l.session) && !NotOutlasted(w, id, l)
    ensures exists k, y :: (
      && 0 <= k < |w.sessions| && k != l.session && Survives(w, id, k, y)
      && !Approves(WithoutSources(w.sessions[l.session], w.nodes, id), y.nodeId) && Readable(c, y.nodeId))
  {
    var s := w.sessions[l.session];
    var x, k, y :| x in s.sources && x.nodeId == id && Revoked(w.nodes, id, x)
      && 0 <= k < |w.sessions| && k != l.session && y in w.sessions[k].sources && y.nodeId == id
      && !Revoked(w.nodes, id, y);
    assert Survives(w, id, k, y);
    assert s in w.sessions;
    ApprovalsLeft(w, id, s, id);
    forall z | z in s.sources && z.nodeId == id ensures z == x {
      OneSource(s, z, x);
    }
  }

  // ---------- The exact condition ----------

  // Events that touch neither the link's session, its client's permissions nor the nodes.
  lemma OthersKeepEligible(
    w: World, e: Event, l: Link, c: Client, consumer: Node, source: Node, output: Port, input: Port)
    requires Inv(w) && Enabled(w, e) && !TriesLinks(e) && !e.RemoveGlobal? && l in Apply(w, e).links && l.live
    requires Eligible(w, c, l.session, consumer, source, output, input)
    requires l == MakeLink(c, l.session, consumer, source, output, input)
    ensures StillEligible(Apply(w, e), l)
  {
    var w' := Apply(w, e);
    FilterMember(w.links, SessionsBut(if e.RequestClose? then e.closing else if e.HostClosed? then e.ended else 0), l);
    assert Eligible(w', c, l.session, consumer, source, output, input);
  }

  lemma AddPortKeepsEligible(
    w: World, p: Port, l: Link, c: Client, consumer: Node, source: Node, output: Port, input: Port)
    requires Eligible(w, c, l.session, consumer, source, output, input)
    requires l == MakeLink(c, l.session, consumer, source, output, input)
    ensures StillEligible(w.(ports := w.ports + [p]), l)
  {
    assert Eligible(w.(ports := w.ports + [p]), c, l.session, consumer, source, output, input);
  }

  lemma RemovalExact(
    w: World, id: nat, l: Link, c: Client, consumer: Node, source: Node, output: Port, input: Port)
    requires Inv(w) && l in w.links && l in Apply(w, RemoveGlobal(id)).links
    requires Eligible(w, c, l.session, consumer, source, output, input)
    requires l == MakeLink(c, l.session, consumer, source, output, input)
    ensures StillEligible(Apply(w, RemoveGlobal(id)), l) <==> NotOutlasted(w, id, l)
  {
    var w' := Apply(w, RemoveGlobal(id));
    FilterMember(w.links, Outliving(w, id), l);
    assert Outlives(w, id, l);
    FilterMember(w.clients, ClientsBut(id), c);
    FilterMember(w.nodes, NodesBut(id), consumer);
    FilterMember(w.nodes, NodesBut(id), source);
    FilterMember(w.ports, PortsBut(id), output);
    FilterMember(w.ports, PortsBut(id), input);
    ApplyKeepsRegistry(w, RemoveGlobal(id));
    SelectedIsApproved(w.nodes, w.sessions[l.session], consumer, source);
    RemovalKeepsPick(w, id, l.session, consumer, source);
    RemovalMatchExact(w, id, c, source, l);
    DecidedByMatchAndPick(w, w', l, c, c, consumer, source, output, input);
  }

  lemma PermissionsExact(
    w: World, e: Event, l: Link, c: Client, consumer: Node, source: Node, output: Port, input: Port)
    requires Inv(w) && Enabled(w, e) && e.SetPermissions?
    requires Eligible(w, c, l.session, consumer, source, output, input)
    requires l == MakeLink(c, l.session, consumer, source, output, input)
    ensures StillEligible(Apply(w, e), l) <==> KeepsEligible(w, e, l)
  {
    var w' := Apply(w, e);
    ApplyKeepsRegistry(w, e);
    var k :| 0 <= k < |w.clients| && w.clients[k] == c;
    if w.clients[e.client].id == c.id {
      OneClient(w, w.clients[e.client], c);
    }
    var ci := if w.clients[e.client].id == c.id then e.client else k;
    assert w'.clients[ci] in w'.clients && w'.clients[ci].id == c.id;
    DecidedByMatchAndPick(w, w', l, c, w'.clients[ci], consumer, source, output, input);
  }

  lemma SourcesExact(
    w: World, e: Event, l: Link, c: Client, consumer: Node, source: Node, output: Port, input: Port)
    requires Inv(w) && Enabled(w, e) && e.SetSources? && l in Apply(w, e).links
    requires Eligible(w, c, l.session, consumer, source, output, input)
    requires l == MakeLink(c, l.session, consumer, source, output, input)
    ensures StillEligible(Apply(w, e), l) <==> KeepsEligible(w, e, l)
  {
    ApplyKeepsRegistry(w, e);
    FilterMember(w.links, SessionsBut(e.started), l);
    SetSourcesExact(w, e.started, e.streams, c, l);
    DecidedByMatchAndPick(w, Apply(w, e), l, c, c, consumer, source, output, input);
  }

  lemma NodeExact(
    w: World, e: Event, l: Link, c: Client, consumer: Node, source: Node, output: Port, input: Port)
    requires Inv(w) && Enabled(w, e) && e.AddNode?
    requires Eligible(w, c, l.session, consumer, source, output, input)
    requires l == MakeLink(c, l.session, consumer, source, output, input)
    ensures StillEligible(Apply(w, e), l) <==> KeepsEligible(w, e, l)
  {
    ApplyKeepsRegistry(w, e);
    AddNodeExact(w, e.node, w.sessions[l.session], consumer, source, l);
    DecidedByMatchAndPick(w, Apply(w, e), l, c, c, consumer, source, output, input);
  }

  lemma EffectExact(
    w: World, e: Event, l: Link, c: Client, consumer: Node, source: Node, output: Port, input: Port)
    requires Inv(w) && Enabled(w, e) && l.live && l in w.links && l in Apply(w, e).links
    requires Eligible(w, c, l.session, consumer, source, output, input)
    requires l == MakeLink(c, l.session, consumer, source, output, input)
    ensures StillEligible(Apply(w, e), l) <==> KeepsEligible(w, e, l)
  {
    match e
    case AddNode(_) => NodeExact(w, e, l, c, consumer, source, output, input);
    case AddPort(p) => AddPortKeepsEligible(w, p, l, c, consumer, source, output, input);
    case SetPermissions(_, _, _) => PermissionsExact(w, e, l, c, consumer, source, output, input);
    case SetSources(_, _) => SourcesExact(w, e, l, c, consumer, source, output, input);
    case RemoveGlobal(id) => RemovalExact(w, id, l, c, consumer, source, output, input);
    case _ => OthersKeepEligible(w, e, l, c, consumer, source, output, input);
  }

  // A live eligible link that outlives a callback is eligible afterwards if and
  // only if the callback's guard held; links that the pass adds always are.
  lemma EligibilityExact(w: World, e: Event, accepts: Link -> bool, w': World, l: Link)
    requires Inv(w) && Next(w, e, accepts, w') && l.live && l in w'.links
    requires l in Apply(w, e).links ==> StillEligible(w, l)
    ensures l.session < |w.sessions|
    ensures StillEligible(w', l) <==> (l !in Apply(w, e).links || KeepsEligible(w, e, l))
  {
    var mid := Apply(w, e);
    assert StillEligible(w', l) <==> StillEligible(mid, l) by {
      SameRegistrySameEligible(mid, w', l);
    }
    LinksSurvive(w, e);
    if l in mid.links {
      var c, consumer, source, output, input :|
        Eligible(w, c, l.session, consumer, source, output, input)
        && l == MakeLink(c, l.session, consumer, source, output, input);
      EffectExact(w, e, l, c, consumer, source, output, input);
    } else {
      var k :| 0 <= k < |w'.links| && w'.links[k] == l;
      assert Justified(mid, accepts, w'.links[k]);
    }
  }

  lemma SameRegistrySameEligible(w: World, w': World, l: Link)
    requires w' == w.(links := w'.links)
    ensures StillEligible(w', l) <==> StillEligible(w, l)
  {
    if c, consumer, source, output, input :|
      Eligible(w, c, l.session, consumer, source, output, input)
      && l == MakeLink(c, l.session, consumer, source, output, input)
    {
      assert Eligible(w', c, l.session, consumer, source, output, input);
    }
    if c, consumer, source, output, input :|
      Eligible(w', c, l.session, consumer, source, output, input)
      && l == MakeLink(c, l.session, consumer, source, output, input)
    {
      assert Eligible(w, c, l.session, consumer, source, output, input);
    }
  }

  // ---------- Runs in which a link outlives its eligibility ----------

  datatype Course = Course(run: seq<World>, events: seq<Event>, accepts: seq<Link -> bool>) {
    ghost predicate Valid() { IsRun(run, events, accepts) }

    function Last(): World
      requires run != []
    {
      run[|run| - 1]
    }
  }

  lemma Continue(course: Course, e: Event, accepts: Link -> bool, w: World) returns (longer: Course)
    requires course.Valid() && Next(course.Last(), e, accepts, w)
    ensures longer.Valid() && longer.Last() == w && course.run <= longer.run
  {
    longer := Course(course.run + [w], course.events + [e], course.accepts + [accepts]);
    forall i | 0 <= i < |longer.events|
      ensures Next(longer.run[i], longer.events[i], longer.accepts[i], longer.run[i + 1])
    {
      if i < |course.events| {
        assert Next(course.run[i], course.events[i], course.accepts[i], course.run[i + 1]);
      }
    }
  }

  // A callback whose pass, if any, links nothing because the server refuses.
  lemma Quietly(course: Course, e: Event) returns (longer: Course)
    requires course.Valid() && Enabled(course.Last(), e)
    ensures longer.Valid() && longer.Last() == Apply(course.Last(), e)
  {
    longer := Continue(course, e, l => false, Apply(course.Last(), e));
  }

  const THE_LINK: Link := Link(true, 0, 9, 7, 2, 3, 4)
  const THE_SOURCE: Node := Node(7, 5, 5, None, None)
  const THE_CONSUMER: Node := Node(2, 9, 8, Some(INPUT_STREAM), Some(5))
  const THE_OUTPUT: Port := Port(3, 7, false, true)
  const THE_INPUT: Port := Port(4, 2, true, false)
  const GRANTED: seq<Permission> := [Permission(ANY_ID, 0), Permission(5, READ_BIT), Permission(7, READ_BIT)]
  const APPROVALS: seq<Source> := [Source(5, 0), Source(7, 5)]

  function Prepared(permissions: seq<Permission>, received: bool, links: seq<Link>): World {
    World([Client(9, received, permissions)], [THE_SOURCE, THE_CONSUMER], [THE_OUTPUT, THE_INPUT], links,
          [Session("session", APPROVALS, false, false)])
  }

  lemma Registration() returns (course: Course)
    ensures course.Valid()
    ensures course.Last() == World([Client(9, false, [])], [THE_SOURCE, THE_CONSUMER], [THE_OUTPUT, THE_INPUT], [], [])
  {
    course := Course([EMPTY], [], []);
    course := Quietly(course, AddClient(9));
    course := Quietly(course, AddNode(THE_SOURCE));
    course := Quietly(course, AddNode(THE_CONSUMER));
    course := Quietly(course, AddPort(THE_OUTPUT));
    course := Quietly(course, AddPort(THE_INPUT));
  }

  lemma Preparation() returns (course: Course)
    ensures course.Valid() && course.Last() == Prepared([], false, [])
  {
    course := Registration();
    course := Quietly(course, CreateSession("session"));
    course := Quietly(course, SetSources(0, APPROVALS));
    ApprovalsDiffer();
  }

  lemma ApprovalsDiffer()
    ensures FirstOfEach(APPROVALS) == APPROVALS
  {
    assert APPROVALS[..1] == [Source(5, 0)];
    assert FirstOfEach([Source(5, 0)][..0]) == [];
    assert FirstOfEach([Source(5, 0)]) == [Source(5, 0)];
  }

  lemma LinkIsEligible(links: seq<Link>)
    ensures StillEligible(Prepared(GRANTED, true, links), THE_LINK)
  {
    var w := Prepared(GRANTED, true, links);
    var c, s := w.clients[0], w.sessions[0];
    assert FirstEntry(c.permissions, ANY_ID, 0) && FirstEntry(c.permissions, 5, 1) && FirstEntry(c.permissions, 7, 2);
    assert s.sources[0] in s.sources && s.sources[1] in s.sources;
    assert Matches(w.sessions, c, 0);
    assert PicksAt(w.nodes, s.sources, 5, THE_SOURCE, 1);
    assert Eligible(w, c, 0, THE_CONSUMER, THE_SOURCE, THE_OUTPUT, THE_INPUT);
  }

  lemma GrantArrives()
    ensures Enabled(Prepared([], false, []), SetPermissions(0, 0, GRANTED))
    ensures Apply(Prepared([], false, []), SetPermissions(0, 0, GRANTED)) == Prepared(GRANTED, true, [])
  {
    assert MergePermissions([], 0, GRANTED) == GRANTED;
  }

  // From the empty world to one eligible link.
  lemma Linking() returns (course: Course)
    ensures course.Valid() && course.Last() == Prepared(GRANTED, true, [THE_LINK])
    ensures Inv(course.Last())
  {
    course := Preparation();
    GrantArrives();
    LinkIsEligible([]);
    LinkIsMade();
    course := Continue(course, SetPermissions(0, 0, GRANTED), l => l == THE_LINK, Prepared(GRANTED, true, [THE_LINK]));
    EveryRunIsSound(course.run, course.events, course.accepts);
  }

  lemma LinkIsMade()
    requires StillEligible(Prepared(GRANTED, true, []), THE_LINK)
    ensures Linked(Prepared(GRANTED, true, []), l => l == THE_LINK, Prepared(GRANTED, true, [THE_LINK]))
  {
    var w := Prepared(GRANTED, true, [THE_LINK]);
    assert w.links[0].live && SameKey(w.links[0], THE_LINK);
    assert HasKey(w.links, THE_LINK);
  }

  // A client that loses its permissions keeps its link.
  lemma RevocationKeepsLink() returns (course: Course)
    ensures course.Valid() && THE_LINK in course.Last().links && !StillEligible(course.Last(), THE_LINK)
  {
    course := Linking();
    var w, e := course.Last(), SetPermissions(0, 0, []);
    LinkIsEligible([THE_LINK]);
    course := Quietly(course, e);
    EligibilityExact(w, e, l => false, course.Last(), THE_LINK);
  }

  // So does one whose target gains a source that the session lists earlier.
  lemma ArrivalKeepsLink() returns (course: Course)
    ensures course.Valid() && THE_LINK in course.Last().links && !StillEligible(course.Last(), THE_LINK)
  {
    course := Linking();
    var w, e := course.Last(), AddNode(Node(5, 6, 1, None, None));
    LinkIsEligible([THE_LINK]);
    course := Quietly(course, e);
    assert GenerationMatches(APPROVALS[0], e.node) && THE_CONSUMER in w.nodes;
    EligibilityExact(w, e, l => false, course.Last(), THE_LINK);
  }
}
