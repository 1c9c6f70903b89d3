// Vocabulary shared by every component: optional values, filtering, and
// relations that hold between all positions of a sequence.
module Collections {

  datatype Option<+T> = None | Some(value: T)

  // The elements of s that satisfy p, in their original order.
  function Filter<T>(s: seq<T>, p: T -> bool): seq<T> {
    if s == [] then []
    else (if p(s[0]) then [s[0]] else []) + Filter(s[1..], p)
  }

  lemma {:induction false} FilterMembers<T(!new)>(s: seq<T>, p: T -> bool)
    ensures |Filter(s, p)| <= |s|
    ensures forall x :: x in Filter(s, p) <==> x in s && p(x)
  {
    if s != [] {
      FilterMembers(s[1..], p);
      assert s == [s[0]] + s[1..];
    }
  }

  lemma FilterMember<T(!new)>(s: seq<T>, p: T -> bool, x: T)
    ensures x in Filter(s, p) <==> x in s && p(x)
  {
    FilterMembers(s, p);
  }

  // Only what p says about the elements of s matters.
  lemma {:induction false} FilterAgree<T>(s: seq<T>, p: T -> bool, q: T -> bool)
    requires forall x :: x in s ==> p(x) == q(x)
    ensures Filter(s, p) == Filter(s, q)
  {
    if s != [] {
      FilterAgree(s[1..], p, q);
    }
  }

  // Filtering twice is filtering by the conjunction.
  lemma {:induction false} FilterTwice<T(!new)>(s: seq<T>, p: T -> bool, q: T -> bool, both: T -> bool)
    requires forall x :: both(x) <==> p(x) && q(x)
    ensures Filter(Filter(s, p), q) == Filter(s, both)
  {
    if s != [] {
      FilterTwice(s[1..], p, q, both);
      if p(s[0]) {
        assert Filter(s, p)[1..] == Filter(s[1..], p);
      } else {
        assert Filter(s, p) == Filter(s[1..], p);
      }
    }
  }

  // A filter that keeps everything changes nothing.
  lemma {:induction false} FilterAll<T>(s: seq<T>, p: T -> bool)
    requires forall x :: x in s ==> p(x)
    ensures Filter(s, p) == s
  {
    if s != [] {
      FilterAll(s[1..], p);
      assert s == [s[0]] + s[1..];
    }
  }

  // r relates every element to every later one.
  ghost predicate Pairwise<T>(s: seq<T>, r: (T, T) -> bool) {
    forall i, j :: 0 <= i < j < |s| ==> r(s[i], s[j])
  }

  lemma {:induction false} FilterPairwise<T(!new)>(s: seq<T>, p: T -> bool, r: (T, T) -> bool)
    requires Pairwise(s, r)
    ensures Pairwise(Filter(s, p), r)
  {
    if s != [] {
      var rest := s[1..];
      FilterMembers(rest, p);
      FilterPairwise(rest, p, r);
      var kept := Filter(rest, p);
      forall j | 0 <= j < |kept| ensures r(s[0], kept[j]) {
        assert kept[j] in kept && kept[j] in rest;
        var k :| 0 <= k < |rest| && rest[k] == kept[j];
        assert s[k + 1] == kept[j];
      }
    }
  }

  predicate NoRepeats<T(==)>(s: seq<T>) {
    forall i, j :: 0 <= i < j < |s| ==> s[i] != s[j]
  }

  // s without its element at position k.
  function RemoveAt<T>(s: seq<T>, k: nat): (r: seq<T>)
    requires k < |s|
  {
    s[..k] + s[k + 1..]
  }

  // One step of a loop that walks an array backwards and deletes what fails p.
  lemma BackwardStep<T>(s: seq<T>, i: nat, p: T -> bool, current: seq<T>)
    requires 0 < i <= |s| && current == s[..i] + Filter(s[i..], p)
    ensures (if p(s[i - 1]) then current else RemoveAt(current, i - 1)) == s[..i - 1] + Filter(s[i - 1..], p)
  {
    assert s[i - 1..][1..] == s[i..];
  }
}
