// Path names of shared documents: where a grant appears inside a sandbox, and
// how a path seen inside is translated back to the host.
module DocumentPaths {
  import opened Collections
  import opened Text

  datatype Grant = Grant(
    docId: string, hostPath: string, appId: string, permissions: seq<string>,
    isDirectory: bool, persistent: bool)

  // ---------- Path building ----------

  function TrimTrailing(s: string): (r: string)
    ensures r <= s && (r != "" ==> r[|r| - 1] != '/')
  {
    if s != "" && s[|s| - 1] == '/' then TrimTrailing(s[..|s| - 1]) else s
  }

  function TrimLeading(s: string): (r: string)
    ensures r != "" ==> r[0] != '/'
  {
    if s != "" && s[0] == '/' then TrimLeading(s[1..]) else s
  }

  // g_build_filename on two elements: exactly one separator where they meet.
  function JoinPath(a: string, b: string): string {
    TrimTrailing(a) + "/" + TrimLeading(b)
  }

  // What follows the last separator.
  function LastPart(s: string): (r: string)
    ensures '/' !in r
  {
    if s == "" || s[|s| - 1] == '/' then "" else LastPart(s[..|s| - 1]) + [s[|s| - 1]]
  }

  // g_path_get_basename: "." for the empty path, "/" for a path of separators only.
  function Basename(path: string): (r: string)
    ensures r == "/" || (r != "" && '/' !in r)
  {
    if path == "" then "."
    else
      var trimmed := TrimTrailing(path);
      if trimmed == "" then "/" else LastPart(trimmed)
  }

  // Where the grant is visible below a directory: dir/id/basename.
  function Target(dir: string, g: Grant): string {
    JoinPath(JoinPath(dir, g.docId), Basename(g.hostPath))
  }

  // An identifier as generate_document_id makes it or document_id_is_valid accepts it.
  predicate CleanId(id: string) {
    id != "" && '/' !in id
  }

  predicate Trimmed(dir: string) {
    dir == "" || dir[|dir| - 1] != '/'
  }

  function Visible(g: Grant): string {
    TrimLeading(Basename(g.hostPath))
  }

  lemma TargetShape(dir: string, g: Grant)
    requires CleanId(g.docId) && Trimmed(dir)
    ensures Target(dir, g) == dir + "/" + (g.docId + "/" + Visible(g))
    ensures '/' !in Visible(g)
  {
    assert TrimLeading(g.docId) == g.docId;
    var inner := JoinPath(dir, g.docId);
    assert inner[|inner| - 1] == g.docId[|g.docId| - 1];
    assert TrimTrailing(inner) == inner;
    assert dir + "/" + g.docId + "/" + Visible(g) == dir + "/" + (g.docId + "/" + Visible(g));
    if Basename(g.hostPath) == "/" {
      assert TrimLeading("/"[1..]) == "";
    } else {
      assert Basename(g.hostPath)[0] in Basename(g.hostPath);
    }
  }

  // Only the directory without its trailing separators matters.
  lemma TargetOfTrimmed(dir: string, g: Grant)
    ensures Trimmed(TrimTrailing(dir)) && Target(dir, g) == Target(TrimTrailing(dir), g)
  {
    assert TrimTrailing(TrimTrailing(dir)) == TrimTrailing(dir);
  }

  // Exactly which directories have a grant's mount of directory e under them: those
  // that e lies in, and the grant's own directory there.
  lemma UnderExactly(d: string, e: string, g: Grant)
    requires CleanId(g.docId)
    ensures d + "/" <= Target(e, g) <==>
            d + "/" <= TrimTrailing(e) + "/" || d == TrimTrailing(e) + "/" + g.docId
  {
    var dir := TrimTrailing(e);
    TargetOfTrimmed(e, g);
    TargetShape(dir, g);
    UnderParts(d, dir + "/", g.docId, Visible(g));
    assert dir + "/" + g.docId + "/" == dir + "/" + (g.docId + "/");
    EndsAlike(d, dir + "/" + g.docId);
  }

  lemma EndsAlike(a: string, b: string)
    ensures a + "/" == b + "/" <==> a == b
  {
    assert (a + "/")[..|a|] == a && (b + "/")[..|b|] == b;
  }

  lemma OnlySeparator(id: string, name: string, j: nat)
    requires '/' !in id && '/' !in name && j <= |id| + |name|
    ensures (id + "/" + name)[j] == '/' <==> j == |id|
  {
    var below := id + "/" + name;
    if j < |id| {
      assert below[j] == id[j] && id[j] in id;
    } else if j > |id| {
      assert below[j] == name[j - |id| - 1] && name[j - |id| - 1] in name;
    }
  }

  // A path that ends in a separator and begins A/id/name ends within A or after id.
  lemma UnderParts(d: string, above: string, id: string, name: string)
    requires '/' !in id && '/' !in name
    ensures d + "/" <= above + (id + "/" + name) <==> d + "/" <= above || d + "/" == above + (id + "/")
  {
    var path, whole := d + "/", above + (id + "/" + name);
    if path <= whole && |path| > |above| {
      var k := |path| - |above|;
      var below := id + "/" + name;
      assert whole[|d|] == '/' && whole[|d|] == below[k - 1];
      OnlySeparator(id, name, k - 1);
      assert below[..k] == id + "/";
      assert path == whole[..|path|] == above + below[..k];
    }
    if path == above + (id + "/") {
      assert whole == path + name;
    }
    if path <= above {
      assert whole[..|path|] == above[..|path|];
    }
  }

  // Neither directory is, or lies below, the other.
  predicate Apart(d: string, e: string) {
    !(d + "/" <= e + "/") && !(e + "/" <= d + "/")
  }

  lemma PrefixesNest(a: string, b: string, s: string)
    requires a <= s && b <= s
    ensures a <= b || b <= a
  {
    if |a| <= |b| {
      assert a == s[..|a|] == b[..|a|];
    } else {
      assert b == s[..|b|] == a[..|b|];
    }
  }

  lemma PlainPrefix(a: string, b: string)
    ensures a <= a + b
  {
  }

  // A grant's mount in one directory lies under no other directory.
  lemma TargetStaysInside(d: string, e: string, g: Grant)
    requires CleanId(g.docId) && Trimmed(d) && Trimmed(e) && (d == e || Apart(d, e))
    ensures d + "/" <= Target(e, g) <==> d == e
  {
    TargetShape(e, g);
    PlainPrefix(e + "/", g.docId + "/" + Visible(g));
    if d + "/" <= Target(e, g) {
      PrefixesNest(d + "/", e + "/", Target(e, g));
    }
  }

  lemma SameId(a: string, x: string, b: string, y: string)
    requires '/' !in a && '/' !in b && a + "/" + x == b + "/" + y
    ensures a == b
  {
    IndexOfPrefix(a, '/', x);
    IndexOfPrefix(b, '/', y);
    assert a == (a + "/" + x)[..|a|];
    assert b == (b + "/" + y)[..|b|];
  }

  // Two cells of the grid never share a mount point.
  lemma TargetsDiffer(d: string, g: Grant, e: string, h: Grant)
    requires CleanId(g.docId) && CleanId(h.docId) && Trimmed(d) && Trimmed(e)
    requires d == e || Apart(d, e)
    ensures Target(d, g) == Target(e, h) ==> d == e && g.docId == h.docId
  {
    TargetStaysInside(d, d, g);
    TargetStaysInside(d, e, h);
    if Target(d, g) == Target(e, h) {
      TargetShape(d, g);
      TargetShape(e, h);
      var x, y := g.docId + "/" + Visible(g), h.docId + "/" + Visible(h);
      assert x == Target(d, g)[|d| + 1..] == y;
      SameId(g.docId, Visible(g), h.docId, Visible(h));
    }
  }

  // ---------- The ".." tests ----------

  predicate UpAt(s: string, i: nat) {
    i + 4 <= |s| && s[i] == '/' && s[i + 1] == '.' && s[i + 2] == '.' && s[i + 3] == '/'
  }

  // strstr(s, "/../") != NULL
  predicate ContainsUp(s: string) {
    exists i :: 0 <= i < |s| && UpAt(s, i)
  }

  // g_str_has_suffix(s, "/..")
  predicate EndsUp(s: string) {
    |s| >= 3 && s[|s| - 3] == '/' && s[|s| - 2] == '.' && s[|s| - 1] == '.'
  }

  // g_str_has_prefix(s, "../")
  predicate StartsUp(s: string) {
    |s| >= 3 && s[0] == '.' && s[1] == '.' && s[2] == '/'
  }

  predicate Climbs(s: string) {
    ContainsUp(s) || EndsUp(s) || StartsUp(s)
  }

  // A whole component ".." begins at i.
  predicate DotsAt(s: string, i: nat) {
    && i + 2 <= |s| && s[i] == '.' && s[i + 1] == '.'
    && (i == 0 || s[i - 1] == '/') && (i + 2 == |s| || s[i + 2] == '/')
  }

  ghost predicate HasDots(s: string) {
    exists i: nat :: DotsAt(s, i)
  }

  lemma {:induction false} DotsIsComponent(s: string, n: nat)
    requires n > |s|
    ensures ".." in SplitN(s, '/', n) <==> HasDots(s)
    decreases |s|
  {
    var k := IndexOf(s, '/');
    if k == |s| {
      WholeIsDots(s);
    } else {
      DotsIsComponent(s[k + 1..], n - 1);
      DotsInParts(s, k);
    }
  }

  lemma WholeIsDots(s: string)
    requires '/' !in s
    ensures s == ".." <==> HasDots(s)
  {
    if s == ".." {
      assert DotsAt(s, 0);
    }
  }

  lemma DotsInParts(s: string, k: nat)
    requires k < |s| && s[k] == '/' && '/' !in s[..k]
    ensures HasDots(s) <==> s[..k] == ".." || HasDots(s[k + 1..])
  {
    var rest := s[k + 1..];
    if s[..k] == ".." {
      assert s[0] == s[..k][0] && s[1] == s[..k][1];
      assert DotsAt(s, 0);
    }
    if i: nat :| DotsAt(rest, i) {
      assert i > 0 ==> rest[i - 1] == s[k + i];
      assert DotsAt(s, k + 1 + i);
    }
    if i: nat :| DotsAt(s, i) {
      assert forall j :: 0 <= j < k ==> s[j] == s[..k][j];
      if i > k {
        assert DotsAt(rest, i - k - 1);
      }
    }
  }

  // The tests find exactly the ".." components, except in the path ".." itself.
  lemma ClimbsIsDotDot(s: string)
    ensures Climbs(s) <==> ".." in Split(s, '/') && s != ".."
  {
    DotsIsComponent(s, |s| + 1);
    if i :| 0 <= i < |s| && UpAt(s, i) {
      assert DotsAt(s, i + 1);
    }
    if EndsUp(s) {
      assert DotsAt(s, |s| - 2);
    }
    if StartsUp(s) {
      assert DotsAt(s, 0);
    }
    if i: nat :| DotsAt(s, i) {
      if i > 0 && i + 2 < |s| {
        assert UpAt(s, i - 1);
      }
    }
  }

  // ---------- Sandbox directories ----------

  predicate DirAllowed(root: string, path: string) {
    "/" <= path && root + "/" <= path && !ContainsUp(path) && !EndsUp(path)
  }

  // An allowed directory lies below the root and names no parent directory.
  lemma AllowedIsInside(root: string, path: string)
    ensures DirAllowed(root, path) <==>
            "/" <= path && root + "/" <= path && ".." !in Split(path, '/')
  {
    ClimbsIsDotDot(path);
  }

  // ---------- Back to the host ----------

  // The first grant with this identifier, or |grants|.
  function FindGrant(grants: seq<Grant>, id: string): (i: nat)
    ensures i <= |grants| && (i < |grants| ==> grants[i].docId == id)
    ensures forall j :: 0 <= j < i ==> grants[j].docId != id
  {
    if grants == [] || grants[0].docId == id then 0 else 1 + FindGrant(grants[1..], id)
  }

  function SuffixOnHost(g: Grant, visible: string): Option<string> {
    var base := Basename(g.hostPath);
    if base <= visible && (|visible| == |base| || visible[|base|] == '/') then
      var suffix := visible[|base|..];
      if (g.isDirectory || suffix == "") && !Climbs(suffix) then Some(g.hostPath + suffix) else None
    else None
  }

  function HostPathFor(mountpoint: string, grants: seq<Grant>, path: string): Option<string> {
    var prefix := mountpoint + "/";
    if !(prefix <= path) then None
    else
      var relative := path[|prefix|..];
      var k := IndexOf(relative, '/');
      if k == |relative| || k == 0 then None
      else
        var i := FindGrant(grants, relative[..k]);
        if i == |grants| then None else SuffixOnHost(grants[i], relative[k + 1..])
  }

  // A suffix names the document itself or, in a directory, something below it.
  ghost predicate Below(g: Grant, suffix: string) {
    suffix == "" || (g.isDirectory && suffix[0] == '/' && ".." !in Split(suffix, '/'))
  }

  lemma SuffixAccepted(g: Grant, suffix: string)
    ensures SuffixOnHost(g, Basename(g.hostPath) + suffix)
         == if Below(g, suffix) then Some(g.hostPath + suffix) else None
  {
    var base := Basename(g.hostPath);
    assert (base + suffix)[|base|..] == suffix;
    ClimbsIsDotDot(suffix);
  }

  lemma LookUp(mountpoint: string, grants: seq<Grant>, id: string, visible: string, path: string)
    requires '/' !in id && path == mountpoint + "/" + (id + "/" + visible)
    ensures HostPathFor(mountpoint, grants, path)
         == var i := FindGrant(grants, id);
            if id == "" || i == |grants| then None else SuffixOnHost(grants[i], visible)
  {
    var prefix, relative := mountpoint + "/", id + "/" + visible;
    assert (prefix + relative)[|prefix|..] == relative;
    IndexOfPrefix(id, '/', visible);
    assert relative[..|id|] == id && relative[|id| + 1..] == visible;
  }

  ghost predicate Names(mountpoint: string, g: Grant, suffix: string, path: string) {
    path == mountpoint + "/" + (g.docId + "/" + (Basename(g.hostPath) + suffix))
  }

  lemma TargetNames(mountpoint: string, g: Grant, suffix: string)
    requires CleanId(g.docId) && Trimmed(mountpoint) && Basename(g.hostPath) != "/"
    ensures Names(mountpoint, g, suffix, Target(mountpoint, g) + suffix)
  {
    var base := Basename(g.hostPath);
    assert base[0] in base;
    TargetShape(mountpoint, g);
    Regroup(mountpoint + "/", g.docId + "/", base, suffix);
  }

  lemma Regroup(a: string, b: string, c: string, d: string)
    ensures a + (b + c) + d == a + (b + (c + d))
  {
  }

  lemma NamedIsTranslated(mountpoint: string, grants: seq<Grant>, i: nat, suffix: string, path: string)
    requires i < |grants| && CleanId(grants[i].docId) && i == FindGrant(grants, grants[i].docId)
    requires Names(mountpoint, grants[i], suffix, path)
    ensures HostPathFor(mountpoint, grants, path)
         == if Below(grants[i], suffix) then Some(grants[i].hostPath + suffix) else None
  {
    LookUp(mountpoint, grants, grants[i].docId, Basename(grants[i].hostPath) + suffix, path);
    SuffixAccepted(grants[i], suffix);
  }

  // Translating a sandbox path back gives the host path it stands for, with any
  // suffix, and refuses every suffix that could leave the document.
  lemma HostPathInverts(mountpoint: string, grants: seq<Grant>, i: nat, suffix: string)
    requires i < |grants| && CleanId(grants[i].docId) && Trimmed(mountpoint)
    requires forall j :: 0 <= j < i ==> grants[j].docId != grants[i].docId
    requires Basename(grants[i].hostPath) != "/"
    ensures HostPathFor(mountpoint, grants, Target(mountpoint, grants[i]) + suffix)
         == if Below(grants[i], suffix) then Some(grants[i].hostPath + suffix) else None
  {
    TargetNames(mountpoint, grants[i], suffix);
    NamedIsTranslated(mountpoint, grants, i, suffix, Target(mountpoint, grants[i]) + suffix);
  }

  // A translated path has the three parts the code cuts it into.
  lemma TranslatedIsNamed(mountpoint: string, grants: seq<Grant>, path: string) returns (i: nat, suffix: string)
    requires HostPathFor(mountpoint, grants, path).Some?
    ensures i < |grants| && CleanId(grants[i].docId) && i == FindGrant(grants, grants[i].docId)
    ensures Names(mountpoint, grants[i], suffix, path)
  {
    var prefix := mountpoint + "/";
    var relative := path[|prefix|..];
    var k := IndexOf(relative, '/');
    var id, visible := relative[..k], relative[k + 1..];
    i := FindGrant(grants, id);
    var base := Basename(grants[i].hostPath);
    suffix := visible[|base|..];
    CutAt(relative, k);
    CutAfter(visible, base);
    CutAfter(path, prefix);
  }

  lemma CutAt(s: string, k: nat)
    requires k < |s| && s[k] == '/'
    ensures s == s[..k] + "/" + s[k + 1..]
  {
  }

  lemma CutAfter(s: string, prefix: string)
    requires prefix <= s
    ensures s == prefix + s[|prefix|..]
  {
  }

  // Nothing else is translated: every answer is some grant's host path, or lies below it.
  lemma HostPathIsGranted(mountpoint: string, grants: seq<Grant>, path: string) returns (i: nat, suffix: string)
    requires HostPathFor(mountpoint, grants, path).Some?
    ensures i < |grants| && Below(grants[i], suffix) && Names(mountpoint, grants[i], suffix, path)
    ensures HostPathFor(mountpoint, grants, path) == Some(grants[i].hostPath + suffix)
  {
    i, suffix := TranslatedIsNamed(mountpoint, grants, path);
    NamedIsTranslated(mountpoint, grants, i, suffix, path);
  }
}
