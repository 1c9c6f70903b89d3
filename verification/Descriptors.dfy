// A process's descriptor table and the calls that change it.
module Descriptors {
  import opened Collections

  type File = nat
  datatype Entry = Entry(file: File, closeOnExec: bool)

  // The numbers a duplicate may still take.
  ghost function Free(open: map<nat, Entry>, minimum: nat, limit: nat): set<nat> {
    set k | minimum <= k < limit && k !in open
  }

  lemma OneLessFree(open: map<nat, Entry>, minimum: nat, limit: nat, k: nat, e: Entry)
    requires minimum <= k < limit && k !in open
    ensures |Free(open[k := e], minimum, limit)| == |Free(open, minimum, limit)| - 1
  {
    assert Free(open[k := e], minimum, limit) == Free(open, minimum, limit) - {k};
  }

  class FdTable {
    const limit: nat
    var open: map<nat, Entry>

    constructor (limit: nat, open: map<nat, Entry>)
      ensures this.limit == limit && this.open == open
    {
      this.limit, this.open := limit, open;
    }

    // F_DUPFD_CLOEXEC: some free number from minimum on, or failure when there is none.
    method DuplicateFrom(fd: nat, minimum: nat) returns (copy: Option<nat>)
      modifies this
      ensures copy.None? ==> open == old(open) && (fd in open ==> |Free(open, minimum, limit)| == 0)
      ensures copy.Some? ==>
        && fd in old(open) && minimum <= copy.value < limit && copy.value !in old(open)
        && open == old(open)[copy.value := Entry(old(open)[fd].file, true)]
    {
      copy := None;
      assert (forall k :: minimum <= k < limit ==> k in open) ==> Free(open, minimum, limit) == {};
      if fd in open && exists k :: minimum <= k < limit && k !in open {
        var k :| minimum <= k < limit && k !in open;
        copy := Some(k);
        open := open[k := Entry(open[fd].file, true)];
      }
    }

    method Duplicate2(fd: nat, target: nat) returns (ok: bool)
      modifies this
      ensures ok == (fd in old(open) && target < limit)
      ensures open == if ok && fd != target then old(open)[target := Entry(old(open)[fd].file, false)] else old(open)
    {
      ok := fd in open && target < limit;
      if ok && fd != target {
        open := open[target := Entry(open[fd].file, false)];
      }
    }

    method ClearCloseOnExec(fd: nat) returns (ok: bool)
      modifies this
      ensures ok == (fd in old(open))
      ensures open == if ok then old(open)[fd := old(open)[fd].(closeOnExec := false)] else old(open)
    {
      ok := fd in open;
      if ok {
        open := open[fd := open[fd].(closeOnExec := false)];
      }
    }

    method Close(fd: nat)
      modifies this
      ensures open == old(open) - {fd}
    {
      open := open - {fd};
    }
  }

  // table is base plus the descriptors fds, which are new, distinct and carry the given files.
  ghost predicate Holds(table: map<nat, Entry>, base: map<nat, Entry>, fds: seq<nat>, files: seq<File>) {
    && |fds| == |files| && NoRepeats(fds)
    && (forall i :: 0 <= i < |fds| ==> fds[i] !in base && fds[i] in table && table[fds[i]] == Entry(files[i], true))
    && (forall k :: k in base ==> k in table && table[k] == base[k])
    && (forall k :: k in table ==> k in base || k in fds)
  }

  // The simultaneous assignment target[i] := file[i]; everything else stays.
  ghost predicate Assigned(before: map<nat, Entry>, after: map<nat, Entry>, targets: seq<nat>, files: seq<File>) {
    && |targets| == |files|
    && (forall i :: 0 <= i < |targets| ==> targets[i] in after && after[targets[i]] == Entry(files[i], false))
    && (forall k :: k !in targets ==> (k in after <==> k in before))
    && (forall k :: k !in targets && k in after ==> after[k] == before[k])
  }

  // Close the descriptors fds, which are all that was added to base.
  method CloseAll(table: FdTable, fds: seq<nat>, ghost base: map<nat, Entry>, ghost files: seq<File>)
    requires Holds(table.open, base, fds, files)
    modifies table
    ensures table.open == base
  {
    for i := 0 to |fds|
      invariant forall k :: k in base ==> k in table.open && table.open[k] == base[k]
      invariant forall k :: k in table.open ==> k in base || k in fds[i..]
    {
      table.Close(fds[i]);
      assert fds[i..] == [fds[i]] + fds[i + 1..];
    }
  }
}

// Installing the descriptors of a nested launch at the numbers the caller chose.
module NestedDescriptors {
  import opened Collections
  import opened Descriptors

  // The least number above 2 and above every target.
  function Above(targets: seq<nat>): nat {
    if targets == [] then 3
    else
      var last, m := targets[|targets| - 1], Above(targets[..|targets| - 1]);
      if last >= m then last + 1 else m
  }

  method Minimum(targets: seq<nat>) returns (m: nat)
    ensures m == Above(targets) && m >= 3 && forall t :: t in targets ==> t < m
  {
    m := 3;
    for i := 0 to |targets|
      invariant m == Above(targets[..i]) && m >= 3 && forall t :: t in targets[..i] ==> t < m
    {
      if targets[i] >= m {
        m := targets[i] + 1;
      }
      assert targets[..i + 1] == targets[..i] + [targets[i]];
      assert targets[..i + 1][..i] == targets[..i];
    }
    assert targets[..|targets|] == targets;
  }

  ghost function Files(open: map<nat, Entry>, fds: seq<nat>): seq<File>
    requires forall i :: 0 <= i < |fds| ==> fds[i] in open
  {
    seq(|fds|, i requires 0 <= i < |fds| => open[fds[i]].file)
  }

  // All sources are copied above every target before any target is written.
  method CopyAbove(table: FdTable, sources: seq<nat>, minimum: nat) returns (copies: Option<seq<nat>>)
    requires forall s :: s in sources ==> s in table.open
    modifies table
    ensures copies.None? ==> table.open == old(table.open)
    ensures copies.Some? ==>
      && Holds(table.open, old(table.open), copies.value, Files(old(table.open), sources))
      && forall c :: c in copies.value ==> minimum <= c
    ensures copies.Some? <==> |Free(old(table.open), minimum, table.limit)| >= |sources|
  {
    var made := [];
    for i := 0 to |sources|
      invariant Holds(table.open, old(table.open), made, Files(old(table.open), sources[..i]))
      invariant forall c :: c in made ==> minimum <= c
      invariant |Free(table.open, minimum, table.limit)| + i == |Free(old(table.open), minimum, table.limit)|
    {
      ghost var current := table.open;
      var copy := table.DuplicateFrom(sources[i], minimum);
      if copy.None? {
        CloseAll(table, made, old(table.open), Files(old(table.open), sources[..i]));
        return None;
      }
      assert old(table.open)[sources[i]] == table.open[sources[i]];
      made := made + [copy.value];
      OneLessFree(current, minimum, table.limit, copy.value, table.open[copy.value]);
    }
    assert sources[..|sources|] == sources;
    copies := Some(made);
  }

  // Each target ends up with the file its source had on entry, whatever the
  // overlap between sources and targets; no copy is left behind.
  method MapNested(table: FdTable, targets: seq<nat>, sources: seq<nat>) returns (ok: bool)
    requires forall s :: s in sources ==> s in table.open
    requires NoRepeats(targets) && |targets| == |sources|
    modifies table
    ensures ok ==> Assigned(old(table.open), table.open, targets, Files(old(table.open), sources))
    ensures ok <==> |Free(old(table.open), Above(targets), table.limit)| >= |sources|
                    && forall i :: 0 <= i < |targets| ==> targets[i] < table.limit
    ensures forall k :: k !in targets ==> (k in table.open <==> k in old(table.open))
    ensures forall k :: k !in targets && k in table.open ==> table.open[k] == old(table.open)[k]
  {
    var minimum := Minimum(targets);
    var copies := CopyAbove(table, sources, minimum);
    if copies.None? {
      return false;
    }
    var fds := copies.value;
    ghost var files := Files(old(table.open), sources);
    for i := 0 to |targets|
      invariant Installed(table.open, old(table.open), targets, fds, files, i)
      invariant forall j :: 0 <= j < i ==> targets[j] < table.limit
    {
      ghost var current := table.open;
      var done := InstallOne(table, fds[i], targets[i]);
      if !done {
        DropFrom(table, fds, i);
        return false;
      }
      InstalledStep(current, table.open, old(table.open), targets, fds, files, i);
    }
    ok := true;
  }

  method InstallOne(table: FdTable, fd: nat, target: nat) returns (ok: bool)
    requires fd in table.open && fd != target
    modifies table
    ensures ok <==> target < table.limit
    ensures table.open == if ok then old(table.open)[target := Entry(old(table.open)[fd].file, false)] - {fd}
                          else old(table.open)
  {
    ok := table.Duplicate2(fd, target);
    if ok {
      ok := table.ClearCloseOnExec(target);
      assert table.open == old(table.open)[target := Entry(old(table.open)[fd].file, false)];
      table.Close(fd);
    }
  }

  lemma InstalledStep(current: map<nat, Entry>, next: map<nat, Entry>, base: map<nat, Entry>, targets: seq<nat>,
                      fds: seq<nat>, files: seq<File>, i: nat)
    requires Installed(current, base, targets, fds, files, i) && i < |targets| && NoRepeats(targets)
    requires next == current[targets[i] := Entry(current[fds[i]].file, false)] - {fds[i]}
    ensures Installed(next, base, targets, fds, files, i + 1)
  {
    assert fds[i..] == [fds[i]] + fds[i + 1..];
  }

  // The first i targets are written and their copies closed; the rest is untouched.
  ghost predicate Installed(table: map<nat, Entry>, base: map<nat, Entry>, targets: seq<nat>, fds: seq<nat>,
                            files: seq<File>, i: nat) {
    && i <= |targets| == |fds| == |files| && NoRepeats(fds)
    && (forall j :: 0 <= j < i ==> targets[j] in table && table[targets[j]] == Entry(files[j], false))
    && (forall j :: i <= j < |fds| ==> fds[j] in table && table[fds[j]] == Entry(files[j], true))
    && (forall j :: 0 <= j < |fds| ==> fds[j] !in base && fds[j] !in targets)
    && (forall k :: k in base && k !in targets ==> k in table && table[k] == base[k])
    && (forall k :: k in table ==> k in base || k in targets || k in fds[i..])
  }

  // The owned copies that were not consumed are closed when the call gives up.
  method DropFrom(table: FdTable, fds: seq<nat>, i: nat)
    requires i <= |fds|
    modifies table
    ensures forall k :: k in table.open <==> k in old(table.open) && k !in fds[i..]
    ensures forall k :: k in table.open ==> table.open[k] == old(table.open)[k]
  {
    for j := i to |fds|
      invariant forall k :: k in table.open <==> k in old(table.open) && k !in fds[i..j]
      invariant forall k :: k in table.open ==> table.open[k] == old(table.open)[k]
    {
      table.Close(fds[j]);
      assert fds[i..j + 1] == fds[i..j] + [fds[j]];
    }
  }
}
