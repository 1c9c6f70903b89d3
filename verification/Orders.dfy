// Strict total orders, lexicographic order, and the one sorted arrangement of a set.
module Orders {

  ghost predicate StrictTotal<T(!new)>(less: (T, T) -> bool) {
    && (forall a :: !less(a, a))
    && (forall a, b :: a != b ==> less(a, b) || less(b, a))
    && forall a, b, c :: less(a, b) && less(b, c) ==> less(a, c)
  }

  // Dictionary order; a proper prefix comes first.
  predicate Lex<T(==)>(a: seq<T>, b: seq<T>, less: (T, T) -> bool) {
    b != [] && (a == [] || less(a[0], b[0]) || (a[0] == b[0] && Lex(a[1..], b[1..], less)))
  }

  lemma {:induction false} LexIrreflexive<T(!new)>(a: seq<T>, less: (T, T) -> bool)
    requires StrictTotal(less)
    ensures !Lex(a, a, less)
  {
    if a != [] {
      LexIrreflexive(a[1..], less);
    }
  }

  lemma {:induction false} LexConnected<T(!new)>(a: seq<T>, b: seq<T>, less: (T, T) -> bool)
    requires StrictTotal(less) && a != b
    ensures Lex(a, b, less) || Lex(b, a, less)
  {
    if a != [] && b != [] && a[0] == b[0] {
      assert a == [a[0]] + a[1..] && b == [b[0]] + b[1..];
      LexConnected(a[1..], b[1..], less);
    }
  }

  lemma {:induction false} LexTransitive<T(!new)>(a: seq<T>, b: seq<T>, c: seq<T>, less: (T, T) -> bool)
    requires StrictTotal(less) && Lex(a, b, less) && Lex(b, c, less)
    ensures Lex(a, c, less)
  {
    if a != [] && a[0] == b[0] == c[0] {
      assert !less(a[0], b[0]) && !less(b[0], c[0]);
      LexTransitive(a[1..], b[1..], c[1..], less);
    }
  }

  function LexOrder<T(==)>(less: (T, T) -> bool): (seq<T>, seq<T>) -> bool {
    (a, b) => Lex(a, b, less)
  }

  // Dictionary order is a strict total order whenever the order of the letters is.
  lemma LexIsStrictTotal<T(!new)>(less: (T, T) -> bool)
    requires StrictTotal(less)
    ensures StrictTotal(LexOrder(less))
  {
    var lex := LexOrder(less);
    forall a ensures !lex(a, a) {
      LexIrreflexive(a, less);
    }
    forall a, b | a != b ensures lex(a, b) || lex(b, a) {
      LexConnected(a, b, less);
    }
    forall a, b, c | lex(a, b) && lex(b, c) ensures lex(a, c) {
      LexTransitive(a, b, c, less);
    }
  }

  ghost predicate Sorted<T>(s: seq<T>, less: (T, T) -> bool) {
    forall i, j :: 0 <= i < j < |s| ==> less(s[i], s[j])
  }

  // A set has only one sorted arrangement.
  lemma {:induction false} SortedIsUnique<T(!new)>(a: seq<T>, b: seq<T>, less: (T, T) -> bool)
    requires StrictTotal(less) && Sorted(a, less) && Sorted(b, less)
    requires forall x :: x in a <==> x in b
    ensures a == b
  {
    assert a != [] ==> a[0] in a;
    assert b != [] ==> b[0] in b;
    if a != [] && b != [] {
      FirstIsLeast(a, b, less);
      FirstIsLeast(b, a, less);
      forall x ensures x in a[1..] <==> x in b[1..] {
        InRest(a, x, less);
        InRest(b, x, less);
      }
      SortedIsUnique(a[1..], b[1..], less);
      assert a == [a[0]] + a[1..] && b == [b[0]] + b[1..];
    }
  }

  lemma FirstIsLeast<T(!new)>(a: seq<T>, b: seq<T>, less: (T, T) -> bool)
    requires StrictTotal(less) && a != [] && Sorted(b, less) && b != [] && a[0] in b
    ensures a[0] == b[0] || less(b[0], a[0])
  {
    var k :| 0 <= k < |b| && b[k] == a[0];
    assert k > 0 ==> less(b[0], b[k]);
  }

  lemma InRest<T(!new)>(a: seq<T>, x: T, less: (T, T) -> bool)
    requires StrictTotal(less) && a != [] && Sorted(a, less)
    ensures x in a[1..] <==> x in a && x != a[0]
  {
    assert a == [a[0]] + a[1..];
    if x in a[1..] {
      var k :| 0 <= k < |a[1..]| && a[1..][k] == x;
      assert less(a[0], a[k + 1]);
    }
  }

  method Insert<T(!new,==)>(s: seq<T>, x: T, less: (T, T) -> bool) returns (r: seq<T>)
    requires StrictTotal(less) && Sorted(s, less) && x !in s
    ensures Sorted(r, less)
    ensures forall y :: y in r <==> y in s || y == x
  {
    var k := 0;
    while k < |s| && less(s[k], x)
      invariant k <= |s| && forall i :: 0 <= i < k ==> less(s[i], x)
    {
      k := k + 1;
    }
    forall i | k <= i < |s| ensures less(x, s[i]) {
      assert s[k] in s && less(x, s[k]);
      assert i > k ==> less(s[k], s[i]);
    }
    r := s[..k] + [x] + s[k..];
    assert s == s[..k] + s[k..];
  }

  method Arrange<T(!new,==)>(keys: set<T>, less: (T, T) -> bool) returns (r: seq<T>)
    requires StrictTotal(less)
    ensures Sorted(r, less)
    ensures forall x :: x in r <==> x in keys
  {
    r := [];
    var left := keys;
    while left != {}
      invariant left <= keys && Sorted(r, less)
      invariant forall x :: x in r <==> x in keys && x !in left
      decreases left
    {
      var x :| x in left;
      r := Insert(r, x, less);
      left := left - {x};
    }
  }
}
