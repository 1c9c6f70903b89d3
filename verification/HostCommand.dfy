// Forwarding descriptors to a host command: a collision-free plan made in the
// parent, carried out by a plain dup2 sequence in the child. The mapping array
// is held as its two columns, sources and targets.
module HostCommand {
  import opened Collections
  import opened Descriptors
  import opened Reachability

  const MAX_INT: nat := 0x7FFF_FFFF

  // The files that the handles of the request name, as they are in the parent.
  ghost function Wanted(open: map<nat, Entry>, list: seq<nat>, handles: seq<nat>): (files: seq<File>)
    requires forall i :: 0 <= i < |handles| ==> handles[i] < |list|
    requires forall i :: 0 <= i < |list| ==> list[i] in open
  {
    seq(|handles|, i requires 0 <= i < |handles| => open[list[handles[i]]].file)
  }

  method TargetIsForwarded(targets: seq<nat>, fd: nat) returns (yes: bool)
    ensures yes <==> fd in targets
  {
    for i := 0 to |targets|
      invariant fd !in targets[..i]
    {
      if targets[i] == fd {
        return true;
      }
    }
    yes := false;
  }

  lemma HoldsOneMore(table: map<nat, Entry>, base: map<nat, Entry>, fds: seq<nat>, files: seq<File>, fd: nat, file: File)
    requires Holds(table, base, fds, files) && fd !in table
    ensures Holds(table[fd := Entry(file, true)], base, fds + [fd], files + [file])
  {
  }

  // The request names existing descriptors and numbers that fit a C int.
  predicate Named(list: seq<nat>, targets: seq<nat>, handles: seq<nat>)
    requires |targets| == |handles|
  {
    forall i :: 0 <= i < |handles| ==> handles[i] < |list| && targets[i] <= MAX_INT
  }

  // Take a fresh copy of every named descriptor; the copies are ours to close.
  method TakeCopies(table: FdTable, list: seq<nat>, targets: seq<nat>, handles: seq<nat>)
    returns (sources: Option<seq<nat>>)
    requires |targets| == |handles| && forall i :: 0 <= i < |list| ==> list[i] in table.open
    modifies table
    ensures sources.None? ==> table.open == old(table.open)
    ensures Named(list, targets, handles) && |Free(old(table.open), 0, table.limit)| >= |targets| ==> sources.Some?
    ensures sources.Some? ==>
      && (forall i :: 0 <= i < |handles| ==> handles[i] < |list| && targets[i] <= MAX_INT)
      && Holds(table.open, old(table.open), sources.value, Wanted(old(table.open), list, handles))
  {
    var made: seq<nat> := [];
    ghost var files: seq<File> := [];
    for i := 0 to |handles|
      invariant forall j :: 0 <= j < i ==> handles[j] < |list| && targets[j] <= MAX_INT
      invariant files == Wanted(old(table.open), list, handles[..i])
      invariant Holds(table.open, old(table.open), made, files)
      invariant |Free(table.open, 0, table.limit)| + i == |Free(old(table.open), 0, table.limit)|
    {
      ghost var current := table.open;
      var copy := None;
      if targets[i] <= MAX_INT && handles[i] < |list| {
        copy := table.DuplicateFrom(list[handles[i]], 0);
      }
      if copy.None? {
        CloseAll(table, made, old(table.open), files);
        return None;
      }
      ghost var file := old(table.open)[list[handles[i]]].file;
      HoldsOneMore(table.open - {copy.value}, old(table.open), made, files, copy.value, file);
      made, files := made + [copy.value], files + [file];
      OneLessFree(current, 0, table.limit, copy.value, table.open[copy.value]);
    }
    assert handles[..|handles|] == handles;
    sources := Some(made);
  }

  ghost function Same(file: File, n: nat): seq<File> {
    seq(n, _ => file)
  }

  // A copy of fd at a number that is no target. Copies that land on a target are
  // held until the end, so that each of them rules one more target number out.
  method CopyOffTargets(table: FdTable, fd: nat, targets: seq<nat>) returns (copy: Option<nat>)
    requires fd in table.open
    modifies table
    ensures copy.None? ==> table.open == old(table.open)
    ensures |Free(old(table.open), 3, table.limit)| > |targets| ==> copy.Some?
    ensures copy.Some? ==>
      && copy.value !in targets && copy.value !in old(table.open)
      && table.open == old(table.open)[copy.value := Entry(old(table.open)[fd].file, true)]
  {
    ghost var file := table.open[fd].file;
    ghost var taken := Members(targets);
    var skipped: seq<nat> := [];
    while true
      invariant Holds(table.open, old(table.open), skipped, Same(file, |skipped|))
      invariant forall k :: k in skipped ==> k in targets
      invariant |Free(table.open, 3, table.limit)| + |skipped| == |Free(old(table.open), 3, table.limit)|
      decreases |taken - table.open.Keys|
    {
      ghost var current := table.open;
      copy := table.DuplicateFrom(fd, 3);
      if copy.None? {
        NoMoreThan(skipped, targets);
        CloseAll(table, skipped, old(table.open), Same(file, |skipped|));
        return;
      }
      var forwarded := TargetIsForwarded(targets, copy.value);
      if !forwarded {
        HoldsBeside(current, old(table.open), skipped, Same(file, |skipped|), copy.value, Entry(file, true));
        break;
      }
      HoldsOneMore(current, old(table.open), skipped, Same(file, |skipped|), copy.value, file);
      FewerLeft(taken, current.Keys, table.open.Keys, copy.value);
      OneLessFree(current, 3, table.limit, copy.value, Entry(file, true));
      skipped := skipped + [copy.value];
      assert Same(file, |skipped|) == Same(file, |skipped| - 1) + [file];
    }
    CloseAll(table, skipped, old(table.open)[copy.value := Entry(file, true)], Same(file, |skipped|));
  }

  ghost function Members(s: seq<nat>): set<nat> {
    set k | k in s
  }

  lemma {:induction false} MembersNoMore(s: seq<nat>)
    ensures |Members(s)| <= |s|
  {
    if s != [] {
      MembersNoMore(s[1..]);
      assert Members(s) == {s[0]} + Members(s[1..]);
    }
  }

  lemma SubsetNoLarger(a: set<nat>, b: set<nat>)
    requires a <= b
    ensures |a| <= |b|
  {
    assert b == a + (b - a);
  }

  // Distinct numbers that are all targets are no more than there are targets.
  lemma NoMoreThan(some: seq<nat>, targets: seq<nat>)
    requires NoRepeats(some) && forall k :: k in some ==> k in targets
    ensures |some| <= |targets|
  {
    NoRepeatsFits(some, Members(targets));
    MembersNoMore(targets);
  }

  // The copies we hold take up at most as many numbers as there are copies.
  lemma RoomLeft(table: map<nat, Entry>, base: map<nat, Entry>, fds: seq<nat>, files: seq<File>, limit: nat)
    requires Holds(table, base, fds, files)
    ensures |Free(base, 3, limit)| <= |Free(table, 3, limit)| + |fds|
  {
    MembersNoMore(fds);
    SubsetNoLarger(Free(base, 3, limit), Free(table, 3, limit) + Members(fds));
  }

  lemma HoldsBeside(table: map<nat, Entry>, base: map<nat, Entry>, fds: seq<nat>, files: seq<File>, fd: nat, e: Entry)
    requires Holds(table, base, fds, files) && fd !in table
    ensures Holds(table[fd := e], base[fd := e], fds, files)
  {
  }

  lemma FewerLeft(taken: set<nat>, open: set<nat>, more: set<nat>, fd: nat)
    requires fd in taken && fd !in open && more == open + {fd}
    ensures |taken - more| < |taken - open|
  {
    assert taken - more == (taken - open) - {fd};
  }

  lemma SourceReplaced(table: map<nat, Entry>, base: map<nat, Entry>, sources: seq<nat>, files: seq<File>, i: nat,
                       copy: nat)
    requires Holds(table, base, sources, files) && i < |sources| && copy !in table
    ensures Holds(table[copy := Entry(files[i], true)] - {sources[i]}, base, sources[i := copy], files)
  {
    var table', sources' := table[copy := Entry(files[i], true)] - {sources[i]}, sources[i := copy];
    forall k | k in table' ensures k in base || k in sources' {
      if k == copy {
        assert sources'[i] == k;
      } else if k !in base {
        var j :| 0 <= j < |sources| && sources[j] == k;
        assert sources'[j] == k;
      }
    }
  }

  // Swap one source for a copy that is no target.
  method Replace(table: FdTable, sources: seq<nat>, targets: seq<nat>, i: nat, ghost base: map<nat, Entry>,
                 ghost files: seq<File>)
    returns (copy: Option<nat>)
    requires Holds(table.open, base, sources, files) && i < |sources|
    modifies table
    ensures copy.None? ==> table.open == old(table.open)
    ensures |Free(base, 3, table.limit)| > |sources| + |targets| ==> copy.Some?
    ensures copy.Some? ==> copy.value !in targets && Holds(table.open, base, sources[i := copy.value], files)
  {
    RoomLeft(table.open, base, sources, files, table.limit);
    copy := CopyOffTargets(table, sources[i], targets);
    if copy.Some? {
      SourceReplaced(old(table.open), base, sources, files, i, copy.value);
      table.Close(sources[i]);
    }
  }

  // No source is a target, so the child may write the targets one after the
  // other; on failure the parent's table is exactly what it was.
  method PrepareMappings(table: FdTable, list: seq<nat>, targets: seq<nat>, handles: seq<nat>)
    returns (plan: Option<seq<nat>>)
    requires |targets| == |handles| && forall i :: 0 <= i < |list| ==> list[i] in table.open
    modifies table
    ensures plan.None? ==> table.open == old(table.open)
    ensures Named(list, targets, handles) && |Free(old(table.open), 3, table.limit)| > 2 * |targets| ==> plan.Some?
    ensures plan.Some? ==>
      && (forall i :: 0 <= i < |handles| ==> handles[i] < |list|)
      && Holds(table.open, old(table.open), plan.value, Wanted(old(table.open), list, handles))
      && Disjoint(plan.value, targets)
  {
    SubsetNoLarger(Free(table.open, 3, table.limit), Free(table.open, 0, table.limit));
    var copies := TakeCopies(table, list, targets, handles);
    if copies.None? {
      return None;
    }
    plan := MoveAside(table, copies.value, targets, old(table.open), Wanted(old(table.open), list, handles));
  }

  // Every source that is also a target is swapped for a copy that is not.
  method MoveAside(table: FdTable, copies: seq<nat>, targets: seq<nat>, ghost base: map<nat, Entry>,
                   ghost files: seq<File>)
    returns (plan: Option<seq<nat>>)
    requires Holds(table.open, base, copies, files)
    modifies table
    ensures plan.None? ==> table.open == base
    ensures |Free(base, 3, table.limit)| > |copies| + |targets| ==> plan.Some?
    ensures plan.Some? ==> Holds(table.open, base, plan.value, files) && Disjoint(plan.value, targets)
  {
    plan := Some(copies);
    for i := 0 to |copies|
      invariant plan.Some? && |plan.value| == |copies| && Holds(table.open, base, plan.value, files)
      invariant Clear(plan.value, targets, i)
    {
      plan := MoveOne(table, plan.value, targets, i, base, files);
      if plan.None? {
        return;
      }
    }
    ClearIsDisjoint(plan.value, targets);
  }

  method MoveOne(table: FdTable, sources: seq<nat>, targets: seq<nat>, i: nat, ghost base: map<nat, Entry>,
                 ghost files: seq<File>)
    returns (plan: Option<seq<nat>>)
    requires i < |sources| && Holds(table.open, base, sources, files) && Clear(sources, targets, i)
    modifies table
    ensures plan.None? ==> table.open == base
    ensures |Free(base, 3, table.limit)| > |sources| + |targets| ==> plan.Some?
    ensures plan.Some? ==> |plan.value| == |sources| && Holds(table.open, base, plan.value, files)
    ensures plan.Some? ==> Clear(plan.value, targets, i + 1)
  {
    plan := Some(sources);
    var forwarded := TargetIsForwarded(targets, sources[i]);
    if forwarded {
      var copy := Replace(table, sources, targets, i, base, files);
      if copy.None? {
        CloseAll(table, sources, base, files);
        return None;
      }
      plan := Some(sources[i := copy.value]);
    }
  }

  // None of the first n sources is a target.
  ghost predicate Clear(sources: seq<nat>, targets: seq<nat>, n: nat) {
    n <= |sources| && forall j :: 0 <= j < n ==> sources[j] !in targets
  }

  lemma ClearIsDisjoint(sources: seq<nat>, targets: seq<nat>)
    requires Clear(sources, targets, |sources|)
    ensures Disjoint(sources, targets)
  {
  }

  predicate Disjoint(sources: seq<nat>, targets: seq<nat>) {
    forall i, j :: 0 <= i < |sources| && 0 <= j < |targets| ==> sources[i] != targets[j]
  }

  // The first i targets are written, and so far only targets changed.
  ghost predicate Written(table: map<nat, Entry>, start: map<nat, Entry>, targets: seq<nat>, files: seq<File>, i: nat) {
    && i <= |targets| == |files|
    && (forall k :: 0 <= k < i ==> targets[k] in table && table[targets[k]] == Entry(files[k], false))
    && (forall k :: k !in targets ==> (k in table <==> k in start))
    && (forall k :: k !in targets && k in table ==> table[k] == start[k])
  }

  lemma TargetWritten(table: map<nat, Entry>, start: map<nat, Entry>, targets: seq<nat>, files: seq<File>, i: nat)
    requires Written(table, start, targets, files, i) && i < |targets| && NoRepeats(targets)
    ensures Written(table[targets[i] := Entry(files[i], false)], start, targets, files, i + 1)
  {
  }

  method WriteTargets(table: FdTable, sources: seq<nat>, targets: seq<nat>, ghost files: seq<File>)
    returns (ok: bool)
    requires |targets| == |sources| == |files| && NoRepeats(targets) && Disjoint(sources, targets)
    requires forall i :: 0 <= i < |sources| ==> sources[i] in table.open && table.open[sources[i]].file == files[i]
    modifies table
    ensures ok ==> Written(table.open, old(table.open), targets, files, |targets|)
    ensures ok <==> forall i :: 0 <= i < |targets| ==> targets[i] < table.limit
  {
    for i := 0 to |targets|
      invariant forall k :: 0 <= k < i ==> targets[k] < table.limit
      invariant Written(table.open, old(table.open), targets, files, i)
    {
      assert sources[i] !in targets;
      TargetWritten(table.open, old(table.open), targets, files, i);
      ok := table.Duplicate2(sources[i], targets[i]);
      if !ok {
        return;
      }
    }
    ok := true;
  }

  // The child: every target gets its source's file, the sources are closed, the
  // rest is inherited. Cycles such as 3 to 4 and 4 to 3 are no exception.
  method ChildSetup(table: FdTable, sources: seq<nat>, targets: seq<nat>, ghost base: map<nat, Entry>,
                    ghost files: seq<File>)
    returns (ok: bool)
    requires Holds(table.open, base, sources, files) && |targets| == |sources| && NoRepeats(targets)
    requires Disjoint(sources, targets)
    modifies table
    ensures ok ==> Assigned(base, table.open, targets, files)
    ensures ok <==> forall i :: 0 <= i < |targets| ==> targets[i] < table.limit
  {
    ghost var start := table.open;
    ok := WriteTargets(table, sources, targets, files);
    if !ok {
      return;
    }
    ghost var written := table.open;
    CloseSources(table, sources);
    AllMoved(start, written, table.open, base, sources, targets, files);
    ok := true;
  }

  lemma AllMoved(start: map<nat, Entry>, written: map<nat, Entry>, after: map<nat, Entry>, base: map<nat, Entry>,
                 sources: seq<nat>, targets: seq<nat>, files: seq<File>)
    requires Holds(start, base, sources, files) && Written(written, start, targets, files, |targets|)
    requires Disjoint(sources, targets)
    requires forall k :: k in after <==> k in written && k !in sources
    requires forall k :: k in after ==> after[k] == written[k]
    ensures Assigned(base, after, targets, files)
  {
    forall i | 0 <= i < |targets| ensures targets[i] in after {
      assert targets[i] !in sources;
    }
    forall k | k !in targets ensures k in after <==> k in base {
      if k in base {
        assert k !in sources;
      }
    }
    forall k | k !in targets && k in after ensures after[k] == base[k] {
      assert k in start;
    }
  }

  method CloseSources(table: FdTable, sources: seq<nat>)
    modifies table
    ensures forall k :: k in table.open <==> k in old(table.open) && k !in sources
    ensures forall k :: k in table.open ==> table.open[k] == old(table.open)[k]
  {
    for j := 0 to |sources|
      invariant forall k :: k in table.open <==> k in old(table.open) && k !in sources[..j]
      invariant forall k :: k in table.open ==> table.open[k] == old(table.open)[k]
    {
      table.Close(sources[j]);
      assert sources[..j + 1] == sources[..j] + [sources[j]];
    }
    assert sources[..|sources|] == sources;
  }

  // From the request to the child's table: the child starts as a copy of the prepared
  // parent, and ends with every target holding the file that its handle named and
  // everything else as the parent had it; the parent ends as it began.
  method Forward(parent: FdTable, list: seq<nat>, targets: seq<nat>, handles: seq<nat>)
    returns (ran: bool, child: FdTable)
    requires |targets| == |handles| && NoRepeats(targets) && forall i :: 0 <= i < |list| ==> list[i] in parent.open
    modifies parent
    ensures fresh(child) && parent.open == old(parent.open)
    ensures ran ==> forall i :: 0 <= i < |handles| ==> handles[i] < |list|
    ensures ran ==> Assigned(old(parent.open), child.open, targets, Wanted(old(parent.open), list, handles))
    ensures (&& Named(list, targets, handles) && (forall i :: 0 <= i < |targets| ==> targets[i] < parent.limit)
             && |Free(old(parent.open), 3, parent.limit)| > 2 * |targets|) ==> ran
  {
    var plan := PrepareMappings(parent, list, targets, handles);
    child := new FdTable(parent.limit, parent.open);
    if plan.None? {
      return false, child;
    }
    ghost var files := Wanted(old(parent.open), list, handles);
    ran := ChildSetup(child, plan.value, targets, old(parent.open), files);
    CloseAll(parent, plan.value, old(parent.open), files);
  }
}
