// Stopping an instance also stops everything it launched: the roots owned,
// directly or through other roots, by the instance's own root.
module OwnershipRoots {
  import opened Collections
  import opened Reachability

  datatype Record = Record(parentRoot: Option<string>, root: Option<string>)

  // One record says that child was launched from parent.
  function Launched(records: seq<Record>): (string, string) -> bool {
    (parent, child) =>
      exists i :: 0 <= i < |records| && records[i] == Record(Some(parent), Some(child))
  }

  function Only(root: string): string -> bool {
    x => x == root
  }

  function RootsNamed(records: seq<Record>): (roots: set<string>)
    ensures forall i :: 0 <= i < |records| && records[i].root.Some? ==> records[i].root.value in roots
  {
    set record | record in records && record.root.Some? :: record.root.value
  }

  // The first n records lead from known roots to known roots only.
  ghost predicate ClosedUpTo(records: seq<Record>, n: nat, roots: seq<string>)
    requires n <= |records|
  {
    forall i :: 0 <= i < n && records[i].parentRoot.Some? && records[i].root.Some? ==>
      (records[i].parentRoot.value in roots ==> records[i].root.value in roots)
  }

  ghost predicate Sound(records: seq<Record>, start: string, roots: seq<string>) {
    && NoRepeats(roots) && start in roots
    && (forall r :: r in roots ==> Reachable(Only(start), Launched(records), r))
    && forall r :: r in roots ==> r in RootsNamed(records) + {start}
  }

  // One pass over the records; it reports whether it found anything new.
  method Sweep(records: seq<Record>, start: string, roots: seq<string>) returns (more: seq<string>, changed: bool)
    requires Sound(records, start, roots)
    ensures Sound(records, start, more) && roots <= more
    ensures changed ==> |more| > |roots|
    ensures !changed ==> more == roots && ClosedUpTo(records, |records|, roots)
  {
    more, changed := roots, false;
    for i := 0 to |records|
      invariant Sound(records, start, more) && roots <= more
      invariant changed ==> |more| > |roots|
      invariant !changed ==> more == roots && ClosedUpTo(records, i, roots)
    {
      var record := records[i];
      if record.parentRoot.Some? && record.parentRoot.value in more
         && record.root.Some? && record.root.value !in more
      {
        var child := record.root.value;
        assert Launched(records)(record.parentRoot.value, child);
        StepIsReachable(Only(start), Launched(records), record.parentRoot.value, child);
        more, changed := more + [child], true;
      }
    }
  }

  // All roots reachable from the instance's root, each once, even when the
  // records form a cycle.
  method OwnershipRoots(root: Option<string>, records: seq<Record>) returns (roots: seq<string>)
    ensures NoRepeats(roots)
    ensures root.None? ==> roots == []
    ensures root.Some? ==>
      forall r :: r in roots <==> Reachable(Only(root.value), Launched(records), r)
    ensures root.Some? ==> roots != [] && roots[0] == root.value
  {
    if root.None? {
      return [];
    }
    var start := root.value;
    roots := [start];
    StartIsReachable(Only(start), Launched(records), start);
    var changed := true;
    while changed
      invariant Sound(records, start, roots) && [start] <= roots
      invariant !changed ==> ClosedUpTo(records, |records|, roots)
      decreases |RootsNamed(records) + {start}| - |roots|, changed
    {
      var more;
      more, changed := Sweep(records, start, roots);
      NoRepeatsFits(more, RootsNamed(records) + {start});
      roots := more;
    }
    forall r ensures Reachable(Only(start), Launched(records), r) ==> r in roots {
      ClosedHoldsReachable(Only(start), Launched(records), (x: string) => x in roots, r);
    }
  }
}
