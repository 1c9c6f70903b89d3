// Splitting, joining and decimal numerals over text. A char stands for one byte.
module Text {
  import opened Collections

  // The position of the first c in s, or |s| when there is none.
  function IndexOf(s: string, c: char): (i: nat)
    ensures i <= |s| && c !in s[..i] && (i < |s| ==> s[i] == c)
  {
    if s == "" || s[0] == c then 0 else
      var i := 1 + IndexOf(s[1..], c);
      assert s[..i] == [s[0]] + s[1..][..i - 1];
      i
  }

  lemma {:induction false} IndexOfPrefix(s: string, c: char, rest: string)
    requires c !in s
    ensures IndexOf(s + [c] + rest, c) == |s|
  {
    if s != "" {
      assert (s + [c] + rest)[1..] == s[1..] + [c] + rest;
      IndexOfPrefix(s[1..], c, rest);
    }
  }

  // At most n parts; the last one takes the remainder.
  function SplitN(s: string, c: char, n: nat): (parts: seq<string>)
    requires n >= 1
    ensures 1 <= |parts| <= n
  {
    var i := IndexOf(s, c);
    if n == 1 || i == |s| then [s] else [s[..i]] + SplitN(s[i + 1..], c, n - 1)
  }

  function Split(s: string, c: char): seq<string> {
    SplitN(s, c, |s| + 1)
  }

  function Join(parts: seq<string>, c: char): string {
    if parts == [] then "" else if |parts| == 1 then parts[0] else parts[0] + [c] + Join(parts[1..], c)
  }

  ghost predicate Free(parts: seq<string>, c: char) {
    forall i :: 0 <= i < |parts| ==> c !in parts[i]
  }

  lemma SplitNCons(head: string, rest: string, c: char, n: nat)
    requires n >= 2 && c !in head
    ensures SplitN(head + [c] + rest, c, n) == [head] + SplitN(rest, c, n - 1)
  {
    IndexOfPrefix(head, c, rest);
    var s := head + [c] + rest;
    assert s[..|head|] == head && s[|head| + 1..] == rest;
  }

  // Splitting undoes joining when no part contains the separator.
  lemma {:induction false} SplitNJoin(parts: seq<string>, c: char, n: nat)
    requires 1 <= |parts| <= n && Free(parts, c)
    ensures SplitN(Join(parts, c), c, n) == parts
  {
    assert parts == [parts[0]] + parts[1..];
    if |parts| == 1 {
      SplitNOne(parts[0], c, n);
    } else {
      SplitNJoin(parts[1..], c, n - 1);
      SplitNCons(parts[0], Join(parts[1..], c), c, n);
    }
  }

  lemma SplitNOne(part: string, c: char, n: nat)
    requires n >= 1 && c !in part
    ensures SplitN(part, c, n) == [part]
  {
    assert IndexOf(part, c) == |part|;
  }

  lemma {:induction false} JoinLength(parts: seq<string>, c: char)
    requires parts != []
    ensures |Join(parts, c)| >= |parts| - 1
  {
    if |parts| > 1 {
      JoinLength(parts[1..], c);
    }
  }

  lemma SplitJoin(parts: seq<string>, c: char)
    requires parts != [] && Free(parts, c)
    ensures Split(Join(parts, c), c) == parts
  {
    JoinLength(parts, c);
    SplitNJoin(parts, c, |Join(parts, c)| + 1);
  }

  // ---------- Decimal numerals ----------

  predicate IsDigit(c: char) { '0' <= c <= '9' }

  function DigitChar(d: nat): (c: char)
    requires d < 10
    ensures IsDigit(c)
  {
    '0' + d as char
  }

  function DigitValue(c: char): (d: nat)
    requires IsDigit(c)
    ensures d < 10
  {
    (c - '0') as nat
  }

  function Numeral(n: nat): (s: string)
    ensures s != "" && forall c :: c in s ==> IsDigit(c)
  {
    if n < 10 then [DigitChar(n)] else Numeral(n / 10) + [DigitChar(n % 10)]
  }

  // None when s is empty or holds anything but digits.
  function ParseDigits(s: string): Option<nat> {
    if s == "" then None
    else
      var last := s[|s| - 1];
      if !IsDigit(last) then None
      else if |s| == 1 then Some(DigitValue(last))
      else
        var front := ParseDigits(s[..|s| - 1]);
        if front.None? then None else Some(10 * front.value + DigitValue(last))
  }

  lemma {:induction false} NumeralRoundTrip(n: nat)
    ensures ParseDigits(Numeral(n)) == Some(n)
  {
    if n >= 10 {
      NumeralRoundTrip(n / 10);
      assert Numeral(n)[..|Numeral(n)| - 1] == Numeral(n / 10);
    }
  }
}
