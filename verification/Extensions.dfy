// Extension points and the runtime refs that fill them.
module Extensions {
  import opened Collections
  import opened Text

  datatype Point = Point(name: string, subdirectories: bool, version: Option<string>, versions: seq<string>,
                         downloadIf: seq<string>, enableIf: seq<string>, autopruneUnless: seq<string>)
  datatype Parent = Parent(arch: string, branch: string)
  datatype Parts = Parts(name: string, arch: string, branch: string)

  // ---------- Refs ----------

  const PREFIX: string := "runtime/"

  function Body(p: Parts): string { p.name + ['/'] + (p.arch + ['/'] + p.branch) }

  function Format(p: Parts): string { PREFIX + Body(p) }

  // Name and architecture end at the first slashes; the branch takes the rest.
  function RefParts(ref: string): Option<Parts> {
    if !(PREFIX <= ref) then None
    else
      var f := SplitN(ref[|PREFIX|..], '/', 3);
      if |f| < 3 then None else Some(Parts(f[0], f[1], f[2]))
  }

  lemma FormatOfParts(ref: string)
    requires RefParts(ref).Some?
    ensures var p := RefParts(ref).value; Format(p) == ref && '/' !in p.name && '/' !in p.arch
  {
    var rest := ref[|PREFIX|..];
    PrefixAndRest(PREFIX, ref);
    var tail := SplitFirst(rest, 3);
    var last := SplitFirst(tail, 2);
    assert rest == Body(RefParts(ref).value);
  }

  // Splitting takes the text before the first slash and goes on with the rest.
  lemma SplitFirst(s: string, n: nat) returns (tail: string)
    requires n >= 2 && |SplitN(s, '/', n)| >= 2
    ensures var f := SplitN(s, '/', n);
            s == f[0] + ['/'] + tail && '/' !in f[0] && f == [f[0]] + SplitN(tail, '/', n - 1)
  {
    tail := s[IndexOf(s, '/') + 1..];
  }

  lemma PrefixAndRest(prefix: string, s: string)
    requires prefix <= s
    ensures s == prefix + s[|prefix|..]
  {
  }

  lemma RestOfFormat(prefix: string, body: string)
    ensures prefix <= prefix + body && (prefix + body)[|prefix|..] == body
  {
  }

  lemma PartsOfFormat(p: Parts)
    requires '/' !in p.name && '/' !in p.arch
    ensures RefParts(Format(p)) == Some(p)
  {
    RestOfFormat(PREFIX, Body(p));
    SplitNCons(p.name, p.arch + ['/'] + p.branch, '/', 3);
    SplitNCons(p.arch, p.branch, '/', 2);
  }

  // ---------- Ownership ----------

  function Deduplicated(items: seq<string>): (r: seq<string>)
    ensures forall x :: x in r <==> x in items
  {
    if items == [] then []
    else
      var before := Deduplicated(items[..|items| - 1]);
      var last := items[|items| - 1];
      assert items == items[..|items| - 1] + [last];
      if last in before then before else before + [last]
  }

  // The versions of a point in order of preference, each once.
  function Branches(point: Point, parent: Parent): seq<string> {
    if point.versions != [] then Deduplicated(point.versions)
    else if point.version.Some? then [point.version.value]
    else [parent.branch]
  }

  predicate Covers(point: Point, parent: Parent, p: Parts) {
    && (p.name == point.name || (point.subdirectories && point.name + "." <= p.name))
    && p.branch in Branches(point, parent)
  }

  // The longest name wins; among equally long ones, the last point.
  predicate Beats(points: seq<Point>, i: nat, j: nat)
    requires i < |points| && j < |points|
  {
    |points[j].name| < |points[i].name| || (|points[j].name| == |points[i].name| && j <= i)
  }

  ghost predicate Owns(points: seq<Point>, parent: Parent, ref: string, i: nat) {
    && i < |points| && RefParts(ref).Some?
    && var p := RefParts(ref).value;
       && p.arch == parent.arch && Covers(points[i], parent, p)
       && forall j :: 0 <= j < |points| && Covers(points[j], parent, p) ==> Beats(points, i, j)
  }

  lemma OwnerIsUnique(points: seq<Point>, parent: Parent, ref: string, i: nat, j: nat)
    requires Owns(points, parent, ref, i) && Owns(points, parent, ref, j)
    ensures i == j
  {
  }

  method PointForRef(points: seq<Point>, parent: Parent, ref: string) returns (owner: Option<nat>)
    ensures owner.Some? ==> Owns(points, parent, ref, owner.value)
    ensures owner.None? ==> forall i: nat :: !Owns(points, parent, ref, i)
  {
    owner := None;
    var parts := RefParts(ref);
    if parts.None? || parts.value.arch != parent.arch {
      return;
    }
    for i := 0 to |points|
      invariant owner.Some? ==> owner.value < i && Covers(points[owner.value], parent, parts.value)
      invariant owner.Some? ==>
        forall j :: 0 <= j < i && Covers(points[j], parent, parts.value) ==> Beats(points, owner.value, j)
      invariant owner.None? ==> forall j :: 0 <= j < i ==> !Covers(points[j], parent, parts.value)
    {
      if Covers(points[i], parent, parts.value)
         && (owner.None? || |points[i].name| >= |points[owner.value].name|) {
        owner := Some(i);
      }
    }
  }

  // ---------- Resolution ----------

  function Candidate(parent: Parent, name: string, branch: string): string {
    Format(Parts(name, parent.arch, branch))
  }

  // Point i owns an available ref for this payload on its k-th preferred branch.
  ghost predicate Usable(points: seq<Point>, parent: Parent, available: set<string>, i: nat, name: string, k: nat) {
    && i < |points| && k < |Branches(points[i], parent)|
    && var c := Candidate(parent, name, Branches(points[i], parent)[k]);
       c in available && Owns(points, parent, c, i)
  }

  ghost predicate FirstUsable(points: seq<Point>, parent: Parent, available: set<string>, i: nat, name: string, k: nat) {
    Usable(points, parent, available, i, name, k)
    && forall j :: 0 <= j < k ==> !Usable(points, parent, available, i, name, j)
  }

  // ref is the first usable branch of its payload for the point that owns it.
  ghost predicate Resolved(points: seq<Point>, parent: Parent, available: set<string>, ref: string, i: nat) {
    && ref in available && Owns(points, parent, ref, i)
    && exists k: nat :: FirstUsable(points, parent, available, i, RefParts(ref).value.name, k)
         && ref == Candidate(parent, RefParts(ref).value.name, Branches(points[i], parent)[k])
  }

  // A point and a payload determine at most one ref.
  lemma AtMostOneRef(points: seq<Point>, parent: Parent, available: set<string>, a: string, b: string, i: nat)
    requires Resolved(points, parent, available, a, i) && Resolved(points, parent, available, b, i)
    requires RefParts(a).value.name == RefParts(b).value.name
    ensures a == b
  {
    var name := RefParts(a).value.name;
    var k: nat :| FirstUsable(points, parent, available, i, name, k)
                  && a == Candidate(parent, name, Branches(points[i], parent)[k]);
    var m: nat :| FirstUsable(points, parent, available, i, name, m)
                  && b == Candidate(parent, name, Branches(points[i], parent)[m]);
    assert k == m;
  }

  // A ref formatted for the point's own name, or for a parsed name, is read back with that name.
  lemma OwnedName(points: seq<Point>, parent: Parent, i: nat, name: string, branch: string)
    requires Owns(points, parent, Candidate(parent, name, branch), i)
    requires name == points[i].name || '/' !in name
    ensures RefParts(Candidate(parent, name, branch)) == Some(Parts(name, parent.arch, branch))
  {
    var c := Candidate(parent, name, branch);
    FormatOfParts(c);
    var p := RefParts(c).value;
    if name == points[i].name {
      assert forall k :: 0 <= k < |name| ==> name[k] == p.name[k] && p.name[k] in p.name;
    }
    PartsOfFormat(Parts(name, parent.arch, branch));
  }

  method IsUsable(points: seq<Point>, parent: Parent, available: set<string>, i: nat, name: string, k: nat)
    returns (yes: bool)
    requires i < |points| && k < |Branches(points[i], parent)|
    ensures yes <==> Usable(points, parent, available, i, name, k)
  {
    var candidate := Candidate(parent, name, Branches(points[i], parent)[k]);
    if candidate !in available {
      return false;
    }
    var owner := PointForRef(points, parent, candidate);
    yes := owner == Some(i);
    if owner.Some? && Owns(points, parent, candidate, i) {
      OwnerIsUnique(points, parent, candidate, i, owner.value);
    }
  }

  method FirstOwned(points: seq<Point>, parent: Parent, available: set<string>, i: nat, name: string)
    returns (ref: Option<string>)
    requires i < |points|
    ensures ref.Some? ==> exists k: nat :: FirstUsable(points, parent, available, i, name, k)
                            && ref.value == Candidate(parent, name, Branches(points[i], parent)[k])
    ensures ref.None? ==> forall k: nat :: !Usable(points, parent, available, i, name, k)
  {
    var branches := Branches(points[i], parent);
    for k := 0 to |branches|
      invariant forall j :: 0 <= j < k ==> !Usable(points, parent, available, i, name, j)
    {
      var usable := IsUsable(points, parent, available, i, name, k);
      if usable {
        assert FirstUsable(points, parent, available, i, name, k);
        return Some(Candidate(parent, name, branches[k]));
      }
    }
    ref := None;
  }

  // The payload names tried for a point: its own and, below it, every installed one.
  ghost predicate Tried(point: Point, parent: Parent, available: set<string>, name: string) {
    || name == point.name
    || (point.subdirectories && point.name + "." <= name
        && exists c :: c in available && RefParts(c).Some? && RefParts(c).value.name == name
                       && RefParts(c).value.arch == parent.arch)
  }

  method PayloadNames(point: Point, parent: Parent, available: set<string>) returns (names: set<string>)
    ensures forall n :: n in names <==> Tried(point, parent, available, n)
  {
    names := {point.name};
    if point.subdirectories {
      var rest := available;
      while rest != {}
        invariant rest <= available
        invariant forall n :: n in names <==>
          || n == point.name
          || (point.name + "." <= n && exists c :: c in available - rest && RefParts(c).Some?
                                        && RefParts(c).value.name == n && RefParts(c).value.arch == parent.arch)
        decreases rest
      {
        var c :| c in rest;
        var parts := RefParts(c);
        rest := rest - {c};
        if parts.Some? && point.name + "." <= parts.value.name && parts.value.arch == parent.arch {
          names := names + {parts.value.name};
        }
      }
    }
  }

  lemma TriedNameIsReadBack(points: seq<Point>, parent: Parent, available: set<string>, i: nat, name: string, k: nat)
    requires i < |points| && Tried(points[i], parent, available, name)
    requires Usable(points, parent, available, i, name, k)
    ensures var c := Candidate(parent, name, Branches(points[i], parent)[k]);
            RefParts(c).Some? && RefParts(c).value.name == name
  {
    if name != points[i].name {
      var c :| c in available && RefParts(c).Some? && RefParts(c).value.name == name
               && RefParts(c).value.arch == parent.arch;
      FormatOfParts(c);
    }
    OwnedName(points, parent, i, name, Branches(points[i], parent)[k]);
  }

  // Resolution returns exactly the refs that the declarative rule names.
  method ResolveRefs(points: seq<Point>, parent: Parent, available: set<string>) returns (resolved: set<string>)
    ensures forall r :: r in resolved <==> exists i: nat :: Resolved(points, parent, available, r, i)
  {
    resolved := {};
    for i := 0 to |points|
      invariant forall r :: r in resolved <==> exists j: nat :: j < i && Resolved(points, parent, available, r, j)
    {
      var refs := ResolvePoint(points, parent, available, i);
      resolved := resolved + refs;
    }
  }

  method ResolvePoint(points: seq<Point>, parent: Parent, available: set<string>, i: nat) returns (refs: set<string>)
    requires i < |points|
    ensures forall r :: r in refs <==> Resolved(points, parent, available, r, i)
  {
    refs := {};
    var names := PayloadNames(points[i], parent, available);
    var rest := names;
    while rest != {}
      invariant rest <= names
      invariant forall r :: r in refs <==>
        Resolved(points, parent, available, r, i) && RefParts(r).value.name in names - rest
      decreases rest
    {
      var name :| name in rest;
      ghost var before := refs;
      var ref := FirstOwned(points, parent, available, i, name);
      rest := rest - {name};
      if ref.Some? {
        FoundIsResolved(points, parent, available, i, name, ref.value);
        refs := refs + {ref.value};
        forall r | Resolved(points, parent, available, r, i) && RefParts(r).value.name == name ensures r == ref.value {
          AtMostOneRef(points, parent, available, r, ref.value, i);
        }
      }
    }
    forall r | Resolved(points, parent, available, r, i) ensures RefParts(r).value.name in names {
      assert Tried(points[i], parent, available, RefParts(r).value.name);
    }
  }

  lemma FoundIsResolved(points: seq<Point>, parent: Parent, available: set<string>, i: nat, name: string, ref: string)
    requires i < |points| && Tried(points[i], parent, available, name)
    requires exists k: nat :: FirstUsable(points, parent, available, i, name, k)
               && ref == Candidate(parent, name, Branches(points[i], parent)[k])
    ensures Resolved(points, parent, available, ref, i) && RefParts(ref).value.name == name
  {
    var k: nat :| FirstUsable(points, parent, available, i, name, k)
                  && ref == Candidate(parent, name, Branches(points[i], parent)[k]);
    TriedNameIsReadBack(points, parent, available, i, name, k);
  }

  // ---------- Keeping an installed extension ----------

  const DYNAMIC: set<string> := {"active-gl-driver", "active-gtk-theme"}

  // Whether a condition holds for a payload name, as the host's facts say.
  type Facts = (string, string) -> bool

  function AnyHolds(facts: Facts, conditions: seq<string>, name: string): bool {
    exists c :: c in conditions && facts(c, name)
  }

  // Depends on the point and the payload name only, not on the branch.
  predicate Keeps(point: Point, name: string, facts: Facts) {
    var dynamic := Filter(point.downloadIf + point.enableIf, c => c in DYNAMIC);
    if point.autopruneUnless != [] then AnyHolds(facts, point.autopruneUnless, name)
    else if dynamic != [] then AnyHolds(facts, dynamic, name)
    else true
  }

  // A resolved ref that its owning point keeps.
  ghost predicate Applicable(points: seq<Point>, parent: Parent, available: set<string>, facts: Facts, ref: string) {
    exists i: nat :: Resolved(points, parent, available, ref, i) && Keeps(points[i], RefParts(ref).value.name, facts)
  }

  method ApplicableRefs(points: seq<Point>, parent: Parent, available: set<string>, facts: Facts)
    returns (refs: set<string>)
    ensures forall r :: r in refs <==> Applicable(points, parent, available, facts, r)
    ensures refs <= available
  {
    var resolved := ResolveRefs(points, parent, available);
    refs := {};
    var rest := resolved;
    while rest != {}
      invariant rest <= resolved && refs <= available
      invariant forall r :: r in refs <==> r !in rest && Applicable(points, parent, available, facts, r)
      decreases rest
    {
      var r :| r in rest;
      rest := rest - {r};
      ghost var i: nat :| Resolved(points, parent, available, r, i);
      var owner := PointForRef(points, parent, r);
      OwnerIsUnique(points, parent, r, i, owner.value);
      if Keeps(points[owner.value], RefParts(r).value.name, facts) {
        refs := refs + {r};
      } else {
        assert !Applicable(points, parent, available, facts, r) by {
          if Applicable(points, parent, available, facts, r) {
            var j: nat :| Resolved(points, parent, available, r, j) && Keeps(points[j], RefParts(r).value.name, facts);
            OwnerIsUnique(points, parent, r, j, i);
          }
        }
      }
    }
  }

  lemma UsableShrinks(points: seq<Point>, parent: Parent, available: set<string>, fewer: set<string>, i: nat,
                      name: string, k: nat)
    requires fewer <= available && Usable(points, parent, fewer, i, name, k)
    ensures Usable(points, parent, available, i, name, k)
  {
  }

  // Removing refs that are not applicable neither loses nor gains an applicable ref.
  lemma PruningIsStable(points: seq<Point>, parent: Parent, available: set<string>, fewer: set<string>, facts: Facts,
                        ref: string)
    requires fewer <= available
    requires forall r :: Applicable(points, parent, available, facts, r) ==> r in fewer
    ensures Applicable(points, parent, fewer, facts, ref) <==> Applicable(points, parent, available, facts, ref)
  {
    if Applicable(points, parent, available, facts, ref) {
      StillApplicable(points, parent, available, fewer, facts, ref);
    }
    if Applicable(points, parent, fewer, facts, ref) {
      WasApplicable(points, parent, available, fewer, facts, ref);
    }
  }

  lemma StillApplicable(points: seq<Point>, parent: Parent, available: set<string>, fewer: set<string>, facts: Facts,
                        ref: string)
    requires fewer <= available && ref in fewer && Applicable(points, parent, available, facts, ref)
    ensures Applicable(points, parent, fewer, facts, ref)
  {
    var i: nat :| Resolved(points, parent, available, ref, i) && Keeps(points[i], RefParts(ref).value.name, facts);
    var name := RefParts(ref).value.name;
    var k: nat :| FirstUsable(points, parent, available, i, name, k)
                  && ref == Candidate(parent, name, Branches(points[i], parent)[k]);
    forall j | 0 <= j < k ensures !Usable(points, parent, fewer, i, name, j) {
      if Usable(points, parent, fewer, i, name, j) {
        UsableShrinks(points, parent, available, fewer, i, name, j);
      }
    }
    assert FirstUsable(points, parent, fewer, i, name, k);
    assert Resolved(points, parent, fewer, ref, i);
  }

  // If a less preferred branch came up only now, the one it replaced would have been kept too.
  lemma WasApplicable(points: seq<Point>, parent: Parent, available: set<string>, fewer: set<string>, facts: Facts,
                      ref: string)
    requires fewer <= available && Applicable(points, parent, fewer, facts, ref)
    requires forall r :: Applicable(points, parent, available, facts, r) ==> r in fewer
    ensures Applicable(points, parent, available, facts, ref)
  {
    var i: nat :| Resolved(points, parent, fewer, ref, i) && Keeps(points[i], RefParts(ref).value.name, facts);
    var name := RefParts(ref).value.name;
    var k: nat :| FirstUsable(points, parent, fewer, i, name, k)
                  && ref == Candidate(parent, name, Branches(points[i], parent)[k]);
    UsableShrinks(points, parent, available, fewer, i, name, k);
    var first := FirstIndex(points, parent, available, i, name, k);
    var best := Candidate(parent, name, Branches(points[i], parent)[first]);
    FormatOfParts(ref);
    OwnedName(points, parent, i, name, Branches(points[i], parent)[first]);
    assert Resolved(points, parent, available, best, i);
    assert best in fewer;
    assert Usable(points, parent, fewer, i, name, first);
    assert first == k;
  }

  lemma {:induction false} FirstIndex(points: seq<Point>, parent: Parent, available: set<string>, i: nat, name: string,
                                      k: nat)
    returns (first: nat)
    requires Usable(points, parent, available, i, name, k)
    ensures first <= k && FirstUsable(points, parent, available, i, name, first)
  {
    if j: nat :| j < k && Usable(points, parent, available, i, name, j) {
      first := FirstIndex(points, parent, available, i, name, j);
    } else {
      first := k;
    }
  }
}
