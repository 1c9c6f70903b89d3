// Extensions may contribute entries to shared directories. Which extension
// provides an entry must not depend on the order in which mounts were resolved.
module MergeDirectories {
  import opened Collections
  import opened Orders

  // A path is the sequence of its components.
  type Path = seq<string>

  datatype Scope = App | Runtime

  datatype Merge = Merge(target: Path, sourceRelative: Path)

  datatype Mount = Mount(
    refName: string, checkout: Path, directory: Path, merges: seq<Merge>, priority: int, scope: Scope)

  // What reading one extension's directory gives: it cannot be opened, an entry
  // cannot be read, or the names in it.
  datatype Listing = Unreadable | Broken | Names(names: seq<string>)

  datatype Candidate = Candidate(priority: int, refName: string, source: Path)
  datatype Group = Group(base: Path, entries: map<string, Candidate>)
  datatype Entry = Entry(name: string, source: Path)
  datatype Directory = Directory(target: Path, base: Path, entries: seq<Entry>)

  // One mount's contribution to one directory.
  datatype Job = Job(mount: Mount, merge: Merge)

  function Root(scope: Scope): string {
    if scope.App? then "app" else "usr"
  }

  // ---------- Orders ----------

  function CharOrder(): (char, char) -> bool { (a: char, b: char) => a < b }
  function NameOrder(): (string, string) -> bool { LexOrder(CharOrder()) }
  function PathOrder(): (Path, Path) -> bool { LexOrder(NameOrder()) }

  predicate Shallower(a: Path, b: Path) {
    |a| < |b| || (|a| == |b| && PathOrder()(a, b))
  }

  function DepthOrder(): (Path, Path) -> bool { (a, b) => Shallower(a, b) }

  lemma OrdersAreTotal()
    ensures StrictTotal(NameOrder()) && StrictTotal(PathOrder()) && StrictTotal(DepthOrder())
  {
    LexIsStrictTotal(CharOrder());
    LexIsStrictTotal(NameOrder());
    DepthIsTotal();
  }

  lemma DepthIsTotal()
    requires StrictTotal(PathOrder())
    ensures StrictTotal(DepthOrder())
  {
    var path, depth := PathOrder(), DepthOrder();
    forall a, b | a != b ensures depth(a, b) || depth(b, a) {
      assert path(a, b) || path(b, a);
    }
    forall a, b, c | depth(a, b) && depth(b, c) ensures depth(a, c) {
      assert path(a, b) && path(b, c) ==> path(a, c);
    }
  }

  predicate Better(a: Candidate, b: Candidate) {
    a.priority > b.priority || (a.priority == b.priority && NameOrder()(a.refName, b.refName))
  }

  lemma BetterIsTransitive(a: Candidate, b: Candidate, c: Candidate)
    ensures Better(a, b) && Better(b, c) ==> Better(a, c)
  {
    OrdersAreTotal();
    var name := NameOrder();
    assert name(a.refName, b.refName) && name(b.refName, c.refName) ==> name(a.refName, c.refName);
  }

  // Offers that beat each other in neither direction come from the same ref.
  lemma NeitherBetter(a: Candidate, b: Candidate)
    requires !Better(a, b) && !Better(b, a)
    ensures a.priority == b.priority && a.refName == b.refName
  {
    OrdersAreTotal();
    var name := NameOrder();
    assert a.refName != b.refName ==> name(a.refName, b.refName) || name(b.refName, a.refName);
  }

  // ---------- Contributions ----------

  function SourceDir(job: Job): Path {
    job.mount.checkout + ["files"] + job.merge.sourceRelative
  }

  function CandidateOf(job: Job, name: string): Candidate {
    Candidate(job.mount.priority, job.mount.refName, SourceDir(job) + [name])
  }

  ghost predicate OfferedBy(job: Job, list: Path -> Listing, target: Path, name: string, c: Candidate) {
    && job.merge.target == target && list(SourceDir(job)).Names?
    && name in list(SourceDir(job)).names && c == CandidateOf(job, name)
  }

  ghost predicate Offered(jobs: seq<Job>, list: Path -> Listing, target: Path, name: string, c: Candidate) {
    exists k :: 0 <= k < |jobs| && OfferedBy(jobs[k], list, target, name, c)
  }

  // entries holds, for every offered name and no other, an offer that none beats.
  ghost predicate Best(entries: map<string, Candidate>, offer: (string, Candidate) -> bool) {
    && (forall n, c :: offer(n, c) ==> n in entries && !Better(c, entries[n]))
    && forall n :: n in entries ==> offer(n, entries[n])
  }

  ghost function Offers(jobs: seq<Job>, list: Path -> Listing, target: Path): (string, Candidate) -> bool {
    (name, c) => Offered(jobs, list, target, name, c)
  }

  function BaseOf(target: Path, appDir: Path, runtimeDir: Path): Path
    requires target != []
  {
    (if target[0] == Root(App) then appDir else runtimeDir) + ["files"] + target[1..]
  }

  // Each directory belongs under its mount's scope and mirrors the merged source.
  ghost predicate WellPlaced(job: Job) {
    job.merge.target == [Root(job.mount.scope)] + job.mount.directory + job.merge.sourceRelative
  }

  ghost predicate IsJob(job: Job, mounts: seq<Mount>) {
    job.mount in mounts && job.merge in job.mount.merges
  }

  // A resolved plan: well placed, and within one scope a ref is mounted once.
  ghost predicate Resolved(mounts: seq<Mount>) {
    && (forall job :: IsJob(job, mounts) ==> WellPlaced(job))
    && forall m, n | m in mounts && n in mounts && m.refName == n.refName && m.scope == n.scope :: m == n
  }

  // ---------- Collecting ----------

  ghost predicate Mentioned(jobs: seq<Job>, target: Path) {
    exists k :: 0 <= k < |jobs| && jobs[k].merge.target == target
  }

  ghost predicate Collected(
    groups: map<Path, Group>, jobs: seq<Job>, list: Path -> Listing, appDir: Path, runtimeDir: Path)
  {
    && (forall t :: t in groups <==> Mentioned(jobs, t))
    && (forall t :: t in groups ==> t != [] && groups[t].base == BaseOf(t, appDir, runtimeDir))
    && forall t :: t in groups ==> Best(groups[t].entries, Offers(jobs, list, t))
  }

  function Improve(entries: map<string, Candidate>, name: string, c: Candidate): map<string, Candidate> {
    if name !in entries || Better(c, entries[name]) then entries[name := c] else entries
  }

  ghost function OffersAnd(
    before: (string, Candidate) -> bool, job: Job, names: seq<string>): (string, Candidate) -> bool
  {
    (name, c) => before(name, c) || (name in names && c == CandidateOf(job, name))
  }

  lemma ImproveKeepsBest(
    entries: map<string, Candidate>, offer: (string, Candidate) -> bool, name: string, c: Candidate,
    more: (string, Candidate) -> bool)
    requires Best(entries, offer)
    requires forall n, d :: more(n, d) <==> offer(n, d) || (n == name && d == c)
    ensures Best(Improve(entries, name, c), more)
  {
    OrdersAreTotal();
    var after := Improve(entries, name, c);
    forall n, d | more(n, d) ensures n in after && !Better(d, after[n]) {
      if n in entries {
        BetterIsTransitive(d, c, entries[n]);
      }
      BetterIsTransitive(d, d, d);
    }
  }

  // All entries of one extension directory compete for their names.
  method MergeEntries(
    entries: map<string, Candidate>, job: Job, names: seq<string>, ghost offer: (string, Candidate) -> bool)
    returns (after: map<string, Candidate>)
    requires Best(entries, offer)
    ensures Best(after, OffersAnd(offer, job, names))
  {
    after := entries;
    for i := 0 to |names|
      invariant Best(after, OffersAnd(offer, job, names[..i]))
    {
      assert names[..i + 1] == names[..i] + [names[i]];
      ImproveKeepsBest(
        after, OffersAnd(offer, job, names[..i]), names[i], CandidateOf(job, names[i]),
        OffersAnd(offer, job, names[..i + 1]));
      after := Improve(after, names[i], CandidateOf(job, names[i]));
    }
    assert names[..|names|] == names;
  }

  lemma BestAgrees(entries: map<string, Candidate>, p: (string, Candidate) -> bool, q: (string, Candidate) -> bool)
    requires Best(entries, p) && forall n, c :: p(n, c) <==> q(n, c)
    ensures Best(entries, q)
  {
  }

  lemma OfferedMore(jobs: seq<Job>, job: Job, list: Path -> Listing, target: Path, name: string, c: Candidate)
    ensures Offered(jobs + [job], list, target, name, c) <==>
            Offered(jobs, list, target, name, c) || OfferedBy(job, list, target, name, c)
  {
    var all := jobs + [job];
    if k :| 0 <= k < |jobs| && OfferedBy(jobs[k], list, target, name, c) {
      assert OfferedBy(all[k], list, target, name, c);
    }
    assert all[|jobs|] == job;
  }

  lemma MentionedMore(jobs: seq<Job>, job: Job, target: Path)
    ensures Mentioned(jobs + [job], target) <==> Mentioned(jobs, target) || job.merge.target == target
  {
    var all := jobs + [job];
    if k :| 0 <= k < |jobs| && jobs[k].merge.target == target {
      assert all[k].merge.target == target;
    }
    assert all[|jobs|] == job;
  }

  function NamesIn(listing: Listing): seq<string> {
    if listing.Names? then listing.names else []
  }

  lemma NothingOffered(jobs: seq<Job>, list: Path -> Listing, target: Path, name: string, c: Candidate)
    requires !Mentioned(jobs, target)
    ensures !Offered(jobs, list, target, name, c)
  {
  }

  // Merging one more contribution into its group extends the collection.
  lemma JobCollected(
    groups: map<Path, Group>, jobs: seq<Job>, list: Path -> Listing, appDir: Path, runtimeDir: Path,
    job: Job, group: Group)
    requires Collected(groups, jobs, list, appDir, runtimeDir)
    requires var t := job.merge.target; t != [] && group.base == BaseOf(t, appDir, runtimeDir)
    requires var t := job.merge.target;
      Best(group.entries, OffersAnd(Offers(jobs, list, t), job, NamesIn(list(SourceDir(job)))))
    ensures Collected(groups[job.merge.target := group], jobs + [job], list, appDir, runtimeDir)
  {
    var after, all := groups[job.merge.target := group], jobs + [job];
    forall t ensures t in after <==> Mentioned(all, t) {
      MentionedMore(jobs, job, t);
    }
    forall t | t in after ensures Best(after[t].entries, Offers(all, list, t)) {
      forall n, c ensures Offers(all, list, t)(n, c) <==>
        Offered(jobs, list, t, n, c) || OfferedBy(job, list, t, n, c)
      {
        OfferedMore(jobs, job, list, t, n, c);
      }
      if t == job.merge.target {
        BestAgrees(
          group.entries, OffersAnd(Offers(jobs, list, t), job, NamesIn(list(SourceDir(job)))), Offers(all, list, t));
      } else {
        BestAgrees(groups[t].entries, Offers(jobs, list, t), Offers(all, list, t));
      }
    }
  }

  method MergeOne(
    groups: map<Path, Group>, job: Job, list: Path -> Listing, appDir: Path, runtimeDir: Path,
    ghost jobs: seq<Job>)
    returns (after: Option<map<Path, Group>>)
    requires Collected(groups, jobs, list, appDir, runtimeDir) && WellPlaced(job)
    ensures after.None? <==> list(SourceDir(job)).Broken?
    ensures after.Some? ==> Collected(after.value, jobs + [job], list, appDir, runtimeDir)
  {
    var t := job.merge.target;
    var base := (if job.mount.scope.App? then appDir else runtimeDir) + ["files"] + t[1..];
    var group := if t in groups then groups[t] else Group(base, map[]);
    forall n, c | t !in groups ensures !Offers(jobs, list, t)(n, c) {
      NothingOffered(jobs, list, t, n, c);
    }
    var listing := list(SourceDir(job));
    if listing.Broken? {
      return None;
    }
    var entries := MergeEntries(group.entries, job, NamesIn(listing), Offers(jobs, list, t));
    JobCollected(groups, jobs, list, appDir, runtimeDir, job, Group(group.base, entries));
    after := Some(groups[t := Group(group.base, entries)]);
  }

  method MergeMount(
    groups: map<Path, Group>, mount: Mount, list: Path -> Listing, appDir: Path, runtimeDir: Path,
    ghost jobs: seq<Job>)
    returns (after: Option<map<Path, Group>>, ghost all: seq<Job>)
    requires Collected(groups, jobs, list, appDir, runtimeDir)
    requires forall merge :: merge in mount.merges ==> WellPlaced(Job(mount, merge))
    ensures after.None? <==> exists merge :: merge in mount.merges && list(SourceDir(Job(mount, merge))).Broken?
    ensures after.Some? ==> Collected(after.value, all, list, appDir, runtimeDir)
    ensures after.Some? ==> forall job ::
      job in all <==> job in jobs || (job.mount == mount && job.merge in mount.merges)
  {
    var current := groups;
    all := jobs;
    for j := 0 to |mount.merges|
      invariant Collected(current, all, list, appDir, runtimeDir)
      invariant forall k :: 0 <= k < j ==> !list(SourceDir(Job(mount, mount.merges[k]))).Broken?
      invariant forall job :: job in all <==> job in jobs || (job.mount == mount && job.merge in mount.merges[..j])
    {
      var job := Job(mount, mount.merges[j]);
      var next := MergeOne(current, job, list, appDir, runtimeDir, all);
      if next.None? {
        assert mount.merges[j] in mount.merges;
        return None, all;
      }
      assert mount.merges[..j + 1] == mount.merges[..j] + [mount.merges[j]];
      current, all := next.value, all + [job];
    }
    assert mount.merges[..|mount.merges|] == mount.merges;
    after := Some(current);
  }

  ghost predicate BrokenJob(mounts: seq<Mount>, list: Path -> Listing) {
    exists job :: IsJob(job, mounts) && list(SourceDir(job)).Broken?
  }

  method Collect(mounts: seq<Mount>, list: Path -> Listing, appDir: Path, runtimeDir: Path)
    returns (groups: Option<map<Path, Group>>, ghost jobs: seq<Job>)
    requires Resolved(mounts)
    ensures groups.None? <==> BrokenJob(mounts, list)
    ensures groups.Some? ==> Collected(groups.value, jobs, list, appDir, runtimeDir)
    ensures groups.Some? ==> forall job :: job in jobs <==> IsJob(job, mounts)
  {
    var current: map<Path, Group> := map[];
    jobs := [];
    for i := 0 to |mounts|
      invariant Collected(current, jobs, list, appDir, runtimeDir)
      invariant forall job :: job in jobs <==> IsJob(job, mounts[..i])
      invariant !BrokenJob(mounts[..i], list)
    {
      assert mounts[..i + 1] == mounts[..i] + [mounts[i]];
      forall merge | merge in mounts[i].merges ensures WellPlaced(Job(mounts[i], merge)) {
        assert IsJob(Job(mounts[i], merge), mounts);
      }
      var next;
      next, jobs := MergeMount(current, mounts[i], list, appDir, runtimeDir, jobs);
      if next.None? {
        var merge :| merge in mounts[i].merges && list(SourceDir(Job(mounts[i], merge))).Broken?;
        assert IsJob(Job(mounts[i], merge), mounts);
        return None, jobs;
      }
      current := next.value;
    }
    assert mounts[..|mounts|] == mounts;
    groups := Some(current);
  }

  // ---------- What the merge means ----------

  ghost predicate IsOffer(mounts: seq<Mount>, list: Path -> Listing, target: Path, name: string, c: Candidate) {
    exists job :: IsJob(job, mounts) && OfferedBy(job, list, target, name, c)
  }

  ghost predicate Wins(mounts: seq<Mount>, list: Path -> Listing, target: Path, name: string, c: Candidate) {
    && IsOffer(mounts, list, target, name, c)
    && forall d :: IsOffer(mounts, list, target, name, d) ==> !Better(d, c)
  }

  ghost predicate IsTarget(mounts: seq<Mount>, target: Path) {
    exists job :: IsJob(job, mounts) && job.merge.target == target
  }

  function TargetsOf(result: seq<Directory>): (targets: seq<Path>)
    ensures |targets| == |result| && forall i :: 0 <= i < |result| ==> targets[i] == result[i].target
  {
    seq(|result|, i requires 0 <= i < |result| => result[i].target)
  }

  function NamesOf(entries: seq<Entry>): (names: seq<string>)
    ensures |names| == |entries| && forall i :: 0 <= i < |entries| ==> names[i] == entries[i].name
  {
    seq(|entries|, i requires 0 <= i < |entries| => entries[i].name)
  }

  ghost predicate WinningEntry(mounts: seq<Mount>, list: Path -> Listing, target: Path, entry: Entry) {
    exists c :: Wins(mounts, list, target, entry.name, c) && c.source == entry.source
  }

  // A directory lists, by name, the source of every name's winning offer.
  ghost predicate Winners(entries: seq<Entry>, mounts: seq<Mount>, list: Path -> Listing, target: Path) {
    && Sorted(NamesOf(entries), NameOrder())
    && (forall n, c :: IsOffer(mounts, list, target, n, c) ==> n in NamesOf(entries))
    && forall i :: 0 <= i < |entries| ==> WinningEntry(mounts, list, target, entries[i])
  }

  ghost predicate Merged(
    result: seq<Directory>, mounts: seq<Mount>, list: Path -> Listing, appDir: Path, runtimeDir: Path)
  {
    && Sorted(TargetsOf(result), DepthOrder())
    && (forall t :: t in TargetsOf(result) <==> IsTarget(mounts, t))
    && (forall i :: 0 <= i < |result| ==>
      result[i].target != [] && result[i].base == BaseOf(result[i].target, appDir, runtimeDir))
    && forall i :: 0 <= i < |result| ==> Winners(result[i].entries, mounts, list, result[i].target)
  }

  lemma OfferedIsOffer(
    jobs: seq<Job>, mounts: seq<Mount>, list: Path -> Listing, target: Path, name: string, c: Candidate)
    requires forall job :: job in jobs <==> IsJob(job, mounts)
    ensures Offered(jobs, list, target, name, c) <==> IsOffer(mounts, list, target, name, c)
  {
    if k :| 0 <= k < |jobs| && OfferedBy(jobs[k], list, target, name, c) {
      assert IsJob(jobs[k], mounts);
    }
    if job :| IsJob(job, mounts) && OfferedBy(job, list, target, name, c) {
      assert job in jobs;
    }
  }

  method ListEntries(
    entries: map<string, Candidate>, ghost mounts: seq<Mount>, list: Path -> Listing, ghost target: Path)
    returns (listed: seq<Entry>)
    requires forall n :: n in entries ==> Wins(mounts, list, target, n, entries[n])
    requires forall n, c :: IsOffer(mounts, list, target, n, c) ==> n in entries
    ensures Winners(listed, mounts, list, target)
  {
    OrdersAreTotal();
    var names := Arrange(entries.Keys, NameOrder());
    assert forall i :: 0 <= i < |names| ==> names[i] in names;
    listed := seq(|names|, i requires 0 <= i < |names| => Entry(names[i], entries[names[i]].source));
    assert NamesOf(listed) == names;
    forall i | 0 <= i < |listed| ensures WinningEntry(mounts, list, target, listed[i]) {
      assert Wins(mounts, list, target, names[i], entries[names[i]]);
    }
  }

  method ListGroup(
    target: Path, group: Group, ghost jobs: seq<Job>, ghost mounts: seq<Mount>, list: Path -> Listing)
    returns (directory: Directory)
    requires Best(group.entries, Offers(jobs, list, target))
    requires forall job :: job in jobs <==> IsJob(job, mounts)
    ensures directory.target == target && directory.base == group.base
    ensures Winners(directory.entries, mounts, list, target)
  {
    forall n, c ensures Offers(jobs, list, target)(n, c) <==> IsOffer(mounts, list, target, n, c) {
      OfferedIsOffer(jobs, mounts, list, target, n, c);
    }
    var entries := ListEntries(group.entries, mounts, list, target);
    directory := Directory(target, group.base, entries);
  }

  method ListGroups(
    groups: map<Path, Group>, ghost jobs: seq<Job>, ghost mounts: seq<Mount>, list: Path -> Listing,
    ghost appDir: Path, ghost runtimeDir: Path)
    returns (result: seq<Directory>)
    requires Collected(groups, jobs, list, appDir, runtimeDir)
    requires forall job :: job in jobs <==> IsJob(job, mounts)
    ensures Merged(result, mounts, list, appDir, runtimeDir)
  {
    OrdersAreTotal();
    var targets := Arrange(groups.Keys, DepthOrder());
    result := [];
    for i := 0 to |targets|
      invariant |result| == i && forall j :: 0 <= j < i ==> result[j].target == targets[j]
      invariant forall j :: 0 <= j < i ==> result[j].base == groups[targets[j]].base
      invariant forall j :: 0 <= j < i ==> Winners(result[j].entries, mounts, list, targets[j])
    {
      assert targets[i] in targets;
      var directory := ListGroup(targets[i], groups[targets[i]], jobs, mounts, list);
      result := result + [directory];
    }
    assert TargetsOf(result) == targets;
    forall t ensures t in targets <==> IsTarget(mounts, t) {
      MentionedIsTarget(jobs, mounts, t);
    }
    assert forall i :: 0 <= i < |targets| ==> targets[i] in targets;
  }

  lemma MentionedIsTarget(jobs: seq<Job>, mounts: seq<Mount>, target: Path)
    requires forall job :: job in jobs <==> IsJob(job, mounts)
    ensures Mentioned(jobs, target) <==> IsTarget(mounts, target)
  {
    if k :| 0 <= k < |jobs| && jobs[k].merge.target == target {
      assert IsJob(jobs[k], mounts);
    }
    if job :| IsJob(job, mounts) && job.merge.target == target {
      assert job in jobs;
    }
  }

  // Every name goes to its winning extension; the merge fails only on an unreadable entry.
  method MergeAll(mounts: seq<Mount>, list: Path -> Listing, appDir: Path, runtimeDir: Path)
    returns (result: Option<seq<Directory>>)
    requires Resolved(mounts)
    ensures result.None? <==> BrokenJob(mounts, list)
    ensures result.Some? ==> Merged(result.value, mounts, list, appDir, runtimeDir)
  {
    var groups, jobs := Collect(mounts, list, appDir, runtimeDir);
    if groups.None? {
      return None;
    }
    var directories := ListGroups(groups.value, jobs, mounts, list, appDir, runtimeDir);
    result := Some(directories);
  }

  // ---------- The order of the mounts does not matter ----------

  ghost predicate SameMounts(a: seq<Mount>, b: seq<Mount>) {
    forall m :: m in a <==> m in b
  }

  lemma SameOffers(a: seq<Mount>, b: seq<Mount>, list: Path -> Listing, target: Path, name: string, c: Candidate)
    requires SameMounts(a, b)
    ensures IsOffer(a, list, target, name, c) ==> IsOffer(b, list, target, name, c)
  {
    if job :| IsJob(job, a) && OfferedBy(job, list, target, name, c) {
      assert IsJob(job, b);
    }
  }

  // In a resolved plan two offers that neither beat the other are the same offer.
  lemma OneOfferPerRef(
    mounts: seq<Mount>, list: Path -> Listing, target: Path, name: string, c: Candidate, d: Candidate)
    requires Resolved(mounts) && c.refName == d.refName
    requires IsOffer(mounts, list, target, name, c) && IsOffer(mounts, list, target, name, d)
    ensures c == d
  {
    var i :| IsJob(i, mounts) && OfferedBy(i, list, target, name, c);
    var j :| IsJob(j, mounts) && OfferedBy(j, list, target, name, d);
    assert WellPlaced(i) && WellPlaced(j);
    assert target[0] == Root(i.mount.scope) == Root(j.mount.scope);
    assert "app" != "usr";
    var head := [Root(i.mount.scope)] + i.mount.directory;
    assert i.merge.sourceRelative == target[|head|..] == j.merge.sourceRelative;
  }

  lemma OneWinner(
    a: seq<Mount>, b: seq<Mount>, list: Path -> Listing, target: Path, name: string, c: Candidate, d: Candidate)
    requires Resolved(a) && SameMounts(a, b)
    requires Wins(a, list, target, name, c) && Wins(b, list, target, name, d)
    ensures c == d
  {
    SameOffers(a, b, list, target, name, c);
    SameOffers(b, a, list, target, name, d);
    NeitherBetter(c, d);
    OneOfferPerRef(a, list, target, name, c, d);
  }

  lemma WinnersInclude(
    x: seq<Entry>, y: seq<Entry>, a: seq<Mount>, b: seq<Mount>, list: Path -> Listing, target: Path, n: string)
    requires SameMounts(a, b) && Winners(x, a, list, target) && Winners(y, b, list, target)
    ensures n in NamesOf(x) ==> n in NamesOf(y)
  {
    if n in NamesOf(x) {
      var i :| 0 <= i < |x| && x[i].name == n;
      var c :| Wins(a, list, target, x[i].name, c);
      SameOffers(a, b, list, target, n, c);
    }
  }

  lemma WinnersAreUnique(
    x: seq<Entry>, y: seq<Entry>, a: seq<Mount>, b: seq<Mount>, list: Path -> Listing, target: Path)
    requires Resolved(a) && SameMounts(a, b)
    requires Winners(x, a, list, target) && Winners(y, b, list, target)
    ensures x == y
  {
    OrdersAreTotal();
    forall n ensures n in NamesOf(x) <==> n in NamesOf(y) {
      WinnersInclude(x, y, a, b, list, target, n);
      WinnersInclude(y, x, b, a, list, target, n);
    }
    SortedIsUnique(NamesOf(x), NamesOf(y), NameOrder());
    forall i | 0 <= i < |x| ensures x[i] == y[i] {
      assert NamesOf(x)[i] == NamesOf(y)[i];
      var c :| Wins(a, list, target, x[i].name, c) && c.source == x[i].source;
      var d :| Wins(b, list, target, y[i].name, d) && d.source == y[i].source;
      OneWinner(a, b, list, target, x[i].name, c, d);
    }
  }

  lemma SameTargets(a: seq<Mount>, b: seq<Mount>, target: Path)
    requires SameMounts(a, b)
    ensures IsTarget(a, target) ==> IsTarget(b, target)
  {
    if job :| IsJob(job, a) && job.merge.target == target {
      assert IsJob(job, b);
    }
  }

  // The merge of the same mounts in any order is the same list of directories.
  lemma OrderDoesNotMatter(
    x: seq<Directory>, y: seq<Directory>, a: seq<Mount>, b: seq<Mount>, list: Path -> Listing,
    appDir: Path, runtimeDir: Path)
    requires Resolved(a) && SameMounts(a, b)
    requires Merged(x, a, list, appDir, runtimeDir) && Merged(y, b, list, appDir, runtimeDir)
    ensures x == y
  {
    OrdersAreTotal();
    forall t ensures t in TargetsOf(x) <==> t in TargetsOf(y) {
      SameTargets(a, b, t);
      SameTargets(b, a, t);
    }
    SortedIsUnique(TargetsOf(x), TargetsOf(y), DepthOrder());
    forall i | 0 <= i < |x| ensures x[i] == y[i] {
      assert TargetsOf(x)[i] == TargetsOf(y)[i];
      WinnersAreUnique(x[i].entries, y[i].entries, a, b, list, x[i].target);
    }
  }

  // A directory is listed after every directory that contains it.
  lemma AncestorsComeFirst(
    x: seq<Directory>, mounts: seq<Mount>, list: Path -> Listing, appDir: Path, runtimeDir: Path, i: nat, j: nat)
    requires Merged(x, mounts, list, appDir, runtimeDir) && i < |x| && j < |x|
    requires x[i].target < x[j].target
    ensures i < j
  {
    var targets := TargetsOf(x);
    assert forall k, l :: 0 <= k < l < |x| ==> DepthOrder()(targets[k], targets[l]);
  }
}
