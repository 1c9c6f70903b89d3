// What can be reached from some starting points by following edges.
module Reachability {
  import opened Collections

  ghost predicate Walk<T(!new)>(path: seq<T>, start: T -> bool, edge: (T, T) -> bool) {
    path != [] && start(path[0]) && forall i :: 0 <= i < |path| - 1 ==> edge(path[i], path[i + 1])
  }

  ghost predicate Ends<T(!new)>(path: seq<T>, start: T -> bool, edge: (T, T) -> bool, x: T) {
    Walk(path, start, edge) && path[|path| - 1] == x
  }

  ghost predicate Reachable<T(!new)>(start: T -> bool, edge: (T, T) -> bool, x: T) {
    exists path :: Ends(path, start, edge, x)
  }

  lemma StartIsReachable<T(!new)>(start: T -> bool, edge: (T, T) -> bool, x: T)
    requires start(x)
    ensures Reachable(start, edge, x)
  {
    assert Ends([x], start, edge, x);
  }

  lemma StepIsReachable<T(!new)>(start: T -> bool, edge: (T, T) -> bool, x: T, y: T)
    requires Reachable(start, edge, x) && edge(x, y)
    ensures Reachable(start, edge, y)
  {
    var path :| Ends(path, start, edge, x);
    assert Ends(path + [y], start, edge, y);
  }

  lemma {:induction false} WalkStaysInside<T(!new)>(
    path: seq<T>, start: T -> bool, edge: (T, T) -> bool, inside: T -> bool)
    requires Walk(path, start, edge)
    requires forall x :: start(x) ==> inside(x)
    requires forall x, y :: inside(x) && edge(x, y) ==> inside(y)
    ensures inside(path[|path| - 1])
  {
    if |path| > 1 {
      WalkStaysInside(path[..|path| - 1], start, edge, inside);
      assert edge(path[|path| - 2], path[|path| - 1]);
    }
  }

  // A closed collection that holds the starting points holds everything reachable.
  lemma ClosedHoldsReachable<T(!new)>(start: T -> bool, edge: (T, T) -> bool, inside: T -> bool, x: T)
    requires forall x :: start(x) ==> inside(x)
    requires forall x, y :: inside(x) && edge(x, y) ==> inside(y)
    ensures Reachable(start, edge, x) ==> inside(x)
  {
    if path :| Ends(path, start, edge, x) {
      WalkStaysInside(path, start, edge, inside);
    }
  }

  // Distinct elements of a finite set are no more than the set has.
  lemma {:induction false} NoRepeatsFits<T>(s: seq<T>, all: set<T>)
    requires NoRepeats(s) && forall x :: x in s ==> x in all
    ensures |s| <= |all|
  {
    if s != [] {
      var last := s[|s| - 1];
      assert last in s;
      NoRepeatsFits(s[..|s| - 1], all - {last});
    }
  }
}
