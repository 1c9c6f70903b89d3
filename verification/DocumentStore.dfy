// Shared documents are mounted into every registered sandbox: a grid of mounts
// with one row per grant and one column per sandbox directory, grown and shrunk
// along both axes, with rollback.
module DocumentStore {
  import opened Collections
  import opened DocumentPaths

  // ---------- The grid ----------

  // Where a grant should be mounted, in the order of the sandbox directories.
  function Row(dirs: seq<string>, g: Grant): (row: seq<string>)
    ensures |row| == |dirs| && forall i :: 0 <= i < |dirs| ==> row[i] == Target(dirs[i], g)
  {
    seq(|dirs|, i requires 0 <= i < |dirs| => Target(dirs[i], g))
  }

  ghost predicate Grid(dirs: seq<string>, grants: seq<Grant>, targets: seq<seq<string>>) {
    |targets| == |grants| && forall i :: 0 <= i < |grants| ==> targets[i] == Row(dirs, grants[i])
  }

  // How many recorded mounts stand on a path.
  ghost function Recorded(targets: seq<seq<string>>, path: string): nat {
    if targets == [] then 0 else multiset(targets[0])[path] + Recorded(targets[1..], path)
  }

  lemma {:induction false} RecordedUpdate(targets: seq<seq<string>>, i: nat, row: seq<string>, path: string)
    requires i < |targets|
    ensures Recorded(targets[i := row], path) + multiset(targets[i])[path]
         == Recorded(targets, path) + multiset(row)[path]
  {
    if i > 0 {
      RecordedUpdate(targets[1..], i - 1, row, path);
      assert targets[i := row][1..] == targets[1..][i - 1 := row];
    } else {
      assert targets[i := row][1..] == targets[1..];
    }
  }

  lemma {:induction false} RecordedAppend(targets: seq<seq<string>>, row: seq<string>, path: string)
    ensures Recorded(targets + [row], path) == Recorded(targets, path) + multiset(row)[path]
  {
    if targets == [] {
      assert (targets + [row])[0] == row && (targets + [row])[1..] == [];
    } else {
      RecordedAppend(targets[1..], row, path);
      assert (targets + [row])[1..] == targets[1..] + [row];
    }
  }

  lemma {:induction false} RecordedRemoved(targets: seq<seq<string>>, i: nat, path: string)
    requires i < |targets|
    ensures Recorded(targets, path) == Recorded(RemoveAt(targets, i), path) + multiset(targets[i])[path]
  {
    if i == 0 {
      assert RemoveAt(targets, 0) == targets[1..];
    } else {
      RecordedRemoved(targets[1..], i - 1, path);
      assert RemoveAt(targets, i)[1..] == RemoveAt(targets[1..], i - 1);
    }
  }

  // A move of mounts: what row held before, left holds afterwards, and nothing else changed.
  ghost predicate Moved(before: multiset<string>, row: seq<string>, after: multiset<string>, left: seq<string>) {
    forall path :: after[path] + multiset(row)[path] == before[path] + multiset(left)[path]
  }

  ghost predicate Holds(mounted: multiset<string>, row: seq<string>) {
    forall path :: multiset(row)[path] <= mounted[path]
  }

  lemma MovedOne(before: multiset<string>, row: seq<string>, after: multiset<string>, left: seq<string>, j: nat)
    requires j < |left| && Moved(before, row, after, left) && Holds(before, row)
    ensures left[j] in after
    ensures Moved(before, row, after - multiset{left[j]}, RemoveAt(left, j))
  {
    assert left == left[..j] + ([left[j]] + left[j + 1..]);
    assert after[left[j]] >= multiset(left)[left[j]];
    forall path ensures multiset(left)[path] == multiset(RemoveAt(left, j))[path] + multiset{left[j]}[path] {
    }
  }

  ghost predicate Agree(mounted: multiset<string>, targets: seq<seq<string>>) {
    forall path :: mounted[path] == Recorded(targets, path)
  }

  lemma RowHeld(mounted: multiset<string>, targets: seq<seq<string>>, i: nat)
    requires i < |targets| && Agree(mounted, targets)
    ensures Holds(mounted, targets[i])
  {
    forall path ensures multiset(targets[i])[path] <= mounted[path] {
      RecordedRemoved(targets, i, path);
    }
  }

  lemma RowReplaced(
    before: multiset<string>, targets: seq<seq<string>>, i: nat, after: multiset<string>, left: seq<string>)
    requires i < |targets| && Agree(before, targets) && Moved(before, targets[i], after, left)
    ensures Agree(after, targets[i := left])
  {
    forall path ensures after[path] == Recorded(targets[i := left], path) {
      RecordedUpdate(targets, i, left, path);
    }
  }

  lemma SameRecordsSameMounts(before: multiset<string>, after: multiset<string>, targets: seq<seq<string>>)
    requires Agree(before, targets) && Agree(after, targets)
    ensures before == after
  {
    assert forall path :: before[path] == after[path];
  }

  lemma MovedMore(row: seq<string>, path: string)
    ensures forall p :: multiset(row + [path])[p] == multiset(row)[p] + multiset{path}[p]
  {
  }

  lemma MovedSnoc(before: multiset<string>, after: multiset<string>, row: seq<string>, path: string)
    requires Moved(before, [], after, row)
    ensures Moved(before, [], after + multiset{path}, row + [path])
  {
    MovedMore(row, path);
  }

  // A row that is mounted but not yet recorded.
  lemma RowAppended(before: multiset<string>, targets: seq<seq<string>>, after: multiset<string>, row: seq<string>)
    requires Agree(before, targets) && Moved(before, [], after, row)
    ensures Agree(after, targets + [row]) && Holds(after, row)
  {
    forall path ensures after[path] == Recorded(targets + [row], path) && multiset(row)[path] <= after[path] {
      RecordedAppend(targets, row, path);
    }
  }

  lemma RowAppendedHeld(before: multiset<string>, after: multiset<string>, row: seq<string>)
    requires Moved(before, [], after, row)
    ensures Holds(after, row)
  {
    forall path ensures multiset(row)[path] <= after[path] {
    }
  }

  // The host has every recorded mount and, beyond them, the forgotten ones.
  ghost predicate AgreeBut(mounted: multiset<string>, targets: seq<seq<string>>, forgotten: seq<string>) {
    forall path :: mounted[path] == Recorded(targets, path) + multiset(forgotten)[path]
  }

  lemma RowForgotten(
    before: multiset<string>, targets: seq<seq<string>>, i: nat, after: multiset<string>, left: seq<string>)
    requires i < |targets| && Agree(before, targets) && Moved(before, targets[i], after, left)
    ensures AgreeBut(after, RemoveAt(targets, i), left)
    ensures Agree(after, RemoveAt(targets, i)) <==> left == []
  {
    forall path ensures after[path] == Recorded(RemoveAt(targets, i), path) + multiset(left)[path] {
      RecordedRemoved(targets, i, path);
    }
    if left != [] {
      assert left[0] in multiset(left);
    }
  }

  lemma TakenBack(before: multiset<string>, during: multiset<string>, after: multiset<string>, row: seq<string>)
    requires Moved(before, [], during, row) && Moved(during, row, after, [])
    ensures after == before
  {
    assert forall path :: after[path] == before[path];
  }

  // A backward walk has dealt with everything from position j on.
  ghost predicate Swept(row: seq<string>, keep: string -> bool, j: nat, left: seq<string>, complete: bool) {
    && j <= |row| && j <= |left| && left[..j] == row[..j]
    && Filter(left[j..], keep) == Filter(row[j..], keep)
    && (complete ==> left[j..] == Filter(row[j..], keep))
  }

  lemma SweptAll(row: seq<string>, keep: string -> bool, left: seq<string>, complete: bool)
    requires Swept(row, keep, 0, left, complete)
    ensures Filter(left, keep) == Filter(row, keep)
    ensures complete ==> left == Filter(row, keep)
  {
    assert left[0..] == left && row[0..] == row;
  }

  function Nothing(): string -> bool {
    path => false
  }

  lemma {:induction false} FilterNothing(row: seq<string>)
    ensures Filter(row, Nothing()) == []
  {
    if row != [] {
      FilterNothing(row[1..]);
    }
  }

  lemma {:induction false} FilterSnoc(s: seq<string>, x: string, p: string -> bool)
    ensures Filter(s + [x], p) == Filter(s, p) + (if p(x) then [x] else [])
  {
    if s == [] {
      assert (s + [x])[0] == x && (s + [x])[1..] == [];
    } else {
      FilterSnoc(s[1..], x, p);
      assert (s + [x])[1..] == s[1..] + [x];
    }
  }

  lemma SweptKeeps(
    row: seq<string>, keep: string -> bool, j: nat, left: seq<string>, complete: bool, still: bool)
    requires Swept(row, keep, j + 1, left, complete) && (still ==> complete && keep(left[j]))
    ensures Swept(row, keep, j, left, still)
  {
    assert left[..j + 1][j] == row[..j + 1][j];
    assert left[..j] == left[..j + 1][..j] == row[..j];
    assert left[j..][1..] == left[j + 1..] && row[j..][1..] == row[j + 1..];
  }

  lemma SweptDrops(row: seq<string>, keep: string -> bool, j: nat, left: seq<string>, complete: bool)
    requires Swept(row, keep, j + 1, left, complete) && !keep(left[j])
    ensures Swept(row, keep, j, RemoveAt(left, j), complete)
  {
    assert left[..j + 1][j] == row[..j + 1][j];
    assert left[..j] == left[..j + 1][..j] == row[..j];
    var after := RemoveAt(left, j);
    assert after[..j] == left[..j] && after[j..] == left[j + 1..];
    assert row[j..][1..] == row[j + 1..];
  }

  // ---------- Sandbox directories that stay out of each other's way ----------

  ghost predicate PrefixFree(dirs: seq<string>) {
    && (forall i :: 0 <= i < |dirs| ==> Trimmed(dirs[i]))
    && forall i, j :: 0 <= i < |dirs| && 0 <= j < |dirs| && dirs[i] != dirs[j] ==> Apart(dirs[i], dirs[j])
  }

  ghost predicate CleanIds(grants: seq<Grant>) {
    && (forall i :: 0 <= i < |grants| ==> CleanId(grants[i].docId))
    && forall i, j :: 0 <= i < j < |grants| ==> grants[i].docId != grants[j].docId
  }

  function Outside(dir: string): string -> bool {
    path => !(dir + "/" <= path)
  }

  function NotDir(dir: string): string -> bool {
    d => d != dir
  }

  // The mount of g in other lies under dir.
  predicate Encloses(dir: string, other: string, g: Grant) {
    dir + "/" <= TrimTrailing(other) + "/" || dir == TrimTrailing(other) + "/" + g.docId
  }

  // Of all directories in dirs, exactly dir has its mount of g under dir.
  ghost predicate Alone(dirs: seq<string>, dir: string, g: Grant) {
    forall i :: 0 <= i < |dirs| ==> (Outside(dir)(Target(dirs[i], g)) <==> dirs[i] != dir)
  }

  lemma PrefixFreeIsAlone(dirs: seq<string>, dir: string, g: Grant)
    requires PrefixFree(dirs + [dir]) && CleanId(g.docId)
    ensures Alone(dirs, dir, g) && Alone([dir], dir, g)
  {
    forall i | 0 <= i < |dirs| ensures Outside(dir)(Target(dirs[i], g)) <==> dirs[i] != dir {
      assert (dirs + [dir])[i] == dirs[i] && (dirs + [dir])[|dirs|] == dir;
      TargetStaysInside(dir, dirs[i], g);
    }
    assert (dirs + [dir])[|dirs|] == dir;
    TargetStaysInside(dir, dir, g);
  }

  lemma RowSnoc(dirs: seq<string>, d: string, g: Grant)
    ensures Row(dirs + [d], g) == Row(dirs, g) + [Target(d, g)]
  {
  }

  lemma RowCons(d: string, dirs: seq<string>, g: Grant)
    ensures Row([d] + dirs, g) == [Target(d, g)] + Row(dirs, g)
  {
    var row, rest := Row([d] + dirs, g), [Target(d, g)] + Row(dirs, g);
    forall i | 0 <= i < |row| ensures row[i] == rest[i] {
    }
  }

  // Detaching everything under dir leaves the row of the other directories.
  lemma {:induction false} AloneLeavesOthers(dirs: seq<string>, dir: string, g: Grant)
    requires Alone(dirs, dir, g)
    ensures Filter(Row(dirs, g), Outside(dir)) == Row(Filter(dirs, NotDir(dir)), g)
  {
    if dirs != [] {
      AloneLeavesOthers(dirs[1..], dir, g);
      assert dirs == [dirs[0]] + dirs[1..];
      RowCons(dirs[0], dirs[1..], g);
      assert Row(dirs, g)[1..] == Row(dirs[1..], g);
      if dirs[0] != dir {
        RowCons(dirs[0], Filter(dirs[1..], NotDir(dir)), g);
      }
    }
  }

  lemma {:induction false} FilterIsRemoveAt(dirs: seq<string>, k: nat)
    requires k < |dirs| && NoRepeats(dirs)
    ensures Filter(dirs, NotDir(dirs[k])) == RemoveAt(dirs, k)
  {
    assert dirs == [dirs[0]] + dirs[1..];
    if k == 0 {
      FilterAll(dirs[1..], NotDir(dirs[0]));
    } else {
      FilterIsRemoveAt(dirs[1..], k - 1);
    }
  }

  // ---------- Exactly when removal is exact ----------

  lemma {:induction false} FilterLength(s: seq<string>, p: string -> bool)
    ensures |Filter(s, p)| <= |s|
    ensures |Filter(s, p)| == |s| ==> Filter(s, p) == s
  {
    if s != [] {
      FilterLength(s[1..], p);
      assert s == [s[0]] + s[1..];
    }
  }

  // Filtering takes out exactly position k only when k alone fails the test.
  lemma {:induction false} FilterDropsOnly(s: seq<string>, k: nat, p: string -> bool)
    requires k < |s| && Filter(s, p) == RemoveAt(s, k)
    ensures forall i :: 0 <= i < |s| ==> (p(s[i]) <==> i != k)
  {
    FilterMembers(s, p);
    if p(s[0]) && k > 0 {
      assert Filter(s, p)[1..] == Filter(s[1..], p);
      assert RemoveAt(s, k)[1..] == RemoveAt(s[1..], k - 1);
      FilterDropsOnly(s[1..], k - 1, p);
      forall i | 0 <= i < |s| ensures p(s[i]) <==> i != k {
        assert i > 0 ==> s[i] == s[1..][i - 1];
      }
    } else if k == 0 {
      DropsFirst(s, p);
    } else {
      DropsNothingEarlier(s, k, p);
    }
  }

  lemma DropsNothingEarlier(s: seq<string>, k: nat, p: string -> bool)
    requires 0 < k < |s| && Filter(s, p) == RemoveAt(s, k)
    ensures p(s[0])
  {
    FilterMembers(s, p);
    assert RemoveAt(s, k)[0] == s[0];
  }

  lemma DropsFirst(s: seq<string>, p: string -> bool)
    requires s != [] && Filter(s, p) == s[1..]
    ensures forall i :: 0 <= i < |s| ==> (p(s[i]) <==> i != 0)
  {
    FilterMembers(s, p);
    FilterLength(s[1..], p);
    forall i | 0 < i < |s| ensures p(s[i]) {
      assert s[1..][i - 1] in Filter(s, p);
    }
    if p(s[0]) {
      FilterAll(s, p);
      assert false;
    }
  }

  lemma RowRemoved(dirs: seq<string>, k: nat, g: Grant)
    requires k < |dirs|
    ensures Row(RemoveAt(dirs, k), g) == RemoveAt(Row(dirs, g), k)
  {
  }

  // Detaching a registered directory restores the grid if and only if no other
  // registered directory mounts the grant below it, and its own mount is found there.
  lemma RemovalExactWhenAlone(dirs: seq<string>, k: nat, g: Grant)
    requires k < |dirs| && NoRepeats(dirs)
    ensures Filter(Row(dirs, g), Outside(dirs[k])) == Row(RemoveAt(dirs, k), g) <==> Alone(dirs, dirs[k], g)
  {
    if Alone(dirs, dirs[k], g) {
      AloneLeavesOthers(dirs, dirs[k], g);
      FilterIsRemoveAt(dirs, k);
    }
    if Filter(Row(dirs, g), Outside(dirs[k])) == Row(RemoveAt(dirs, k), g) {
      RowRemoved(dirs, k, g);
      FilterDropsOnly(Row(dirs, g), k, Outside(dirs[k]));
      forall i | 0 <= i < |dirs| ensures Outside(dirs[k])(Target(dirs[i], g)) <==> dirs[i] != dirs[k] {
        assert Row(dirs, g)[i] == Target(dirs[i], g);
        assert i < k ==> dirs[i] != dirs[k];
        assert i > k ==> dirs[k] != dirs[i];
      }
    }
  }

  // Whether a directory stands alone can be read off the directories themselves: it
  // has no trailing separator, no other one lies in it, and it is no other one's
  // directory of this grant.
  lemma AloneExactly(dirs: seq<string>, dir: string, g: Grant)
    requires CleanId(g.docId)
    ensures Alone(dirs, dir, g) <==> forall i :: 0 <= i < |dirs| ==> (dirs[i] == dir <==> Encloses(dir, dirs[i], g))
  {
    forall i | 0 <= i < |dirs| ensures Outside(dir)(Target(dirs[i], g)) <==> !Encloses(dir, dirs[i], g) {
      UnderExactly(dir, dirs[i], g);
    }
  }

  // A directory registered with trailing separators never finds its own mounts.
  lemma TrailingSeparatorIsNeverAlone(dir: string, g: Grant)
    requires CleanId(g.docId) && !Trimmed(dir)
    ensures Outside(dir)(Target(dir, g)) && !Alone([dir], dir, g)
  {
    UnderExactly(dir, dir, g);
    assert [dir][0] == dir;
    var short := TrimTrailing(dir);
    assert short != dir && |short| < |dir|;
    var own := short + "/" + g.docId;
    assert own[|own| - 1] == g.docId[|g.docId| - 1] && g.docId[|g.docId| - 1] in g.docId;
  }

  // Nested directories: removing the outer one also detaches the inner one's mounts,
  // and removing an inner one named after the grant detaches the outer one's.
  lemma NestedIsNotAlone(outer: string, inner: string, g: Grant)
    requires CleanId(g.docId) && outer != inner
    ensures outer + "/" <= TrimTrailing(inner) + "/" ==> !Alone([outer, inner], outer, g)
    ensures inner == TrimTrailing(outer) + "/" + g.docId ==> !Alone([outer, inner], inner, g)
  {
    UnderExactly(outer, inner, g);
    UnderExactly(inner, outer, g);
    assert [outer, inner][0] == outer && [outer, inner][1] == inner;
  }

  // ---------- Whole columns ----------

  lemma ColumnAdded(
    dirs: seq<string>, dir: string, grants: seq<Grant>, before: seq<seq<string>>, after: seq<seq<string>>)
    requires Grid(dirs, grants, before) && |after| == |grants|
    requires forall i :: 0 <= i < |grants| ==> after[i] == before[i] + [Target(dir, grants[i])]
    ensures Grid(dirs + [dir], grants, after)
  {
    forall i | 0 <= i < |grants| ensures after[i] == Row(dirs + [dir], grants[i]) {
      RowSnoc(dirs, dir, grants[i]);
    }
  }

  // Rolling back after n mounts loses nothing old and misses nothing new.
  ghost predicate RollsBack(dirs: seq<string>, dir: string, grants: seq<Grant>, n: nat) {
    forall i :: 0 <= i < |grants| ==> RowRollsBack(dirs, dir, grants[i], i < n)
  }

  ghost predicate RowRollsBack(dirs: seq<string>, dir: string, g: Grant, mounted: bool) {
    && (forall j :: 0 <= j < |dirs| ==> Outside(dir)(Target(dirs[j], g)))
    && (mounted ==> !Outside(dir)(Target(dir, g)))
  }

  lemma RowRollsBackExactly(dirs: seq<string>, dir: string, g: Grant, mounted: bool)
    ensures Filter(Row(dirs, g) + (if mounted then [Target(dir, g)] else []), Outside(dir)) == Row(dirs, g)
            <==> RowRollsBack(dirs, dir, g, mounted)
  {
    var row, keep := Row(dirs, g), Outside(dir);
    FilterMembers(row, keep);
    FilterLength(row, keep);
    FilterSnoc(row, Target(dir, g), keep);
    assert row + [] == row;
    if forall j :: 0 <= j < |dirs| ==> keep(row[j]) {
      FilterAll(row, keep);
    } else {
      var j :| 0 <= j < |dirs| && !keep(row[j]);
      assert row[j] in row;
    }
  }

  lemma ColumnRollsBackExactly(
    dirs: seq<string>, dir: string, grants: seq<Grant>, before: seq<seq<string>>, done: nat,
    partial: seq<seq<string>>, after: seq<seq<string>>)
    requires Grid(dirs, grants, before) && |partial| == |after| == |grants|
    requires forall i :: 0 <= i < |grants| ==>
      partial[i] == if i < done then before[i] + [Target(dir, grants[i])] else before[i]
    requires forall i :: 0 <= i < |grants| ==> after[i] == Filter(partial[i], Outside(dir))
    ensures after == before <==> RollsBack(dirs, dir, grants, done)
  {
    forall i | 0 <= i < |grants| ensures after[i] == before[i] <==> RowRollsBack(dirs, dir, grants[i], i < done) {
      RowRollsBackExactly(dirs, dir, grants[i], i < done);
      assert before[i] + [] == before[i];
    }
  }

  lemma PrefixFreeRollsBack(dirs: seq<string>, dir: string, grants: seq<Grant>, n: nat)
    requires dir !in dirs && PrefixFree(dirs + [dir]) && CleanIds(grants)
    ensures RollsBack(dirs, dir, grants, n)
  {
    forall i | 0 <= i < |grants| ensures RowRollsBack(dirs, dir, grants[i], i < n) {
      PrefixFreeIsAlone(dirs, dir, grants[i]);
      assert [dir][0] == dir;
    }
  }

  // What does not lie under dir is recorded as before.
  ghost predicate OthersStay(dir: string, before: seq<seq<string>>, after: seq<seq<string>>) {
    && |after| == |before|
    && forall i :: 0 <= i < |after| ==> Filter(after[i], Outside(dir)) == Filter(before[i], Outside(dir))
  }

  ghost predicate AllAlone(dirs: seq<string>, dir: string, grants: seq<Grant>) {
    forall i :: 0 <= i < |grants| ==> Alone(dirs, dir, grants[i])
  }

  lemma ColumnRemoved(
    dirs: seq<string>, k: nat, grants: seq<Grant>, before: seq<seq<string>>, after: seq<seq<string>>)
    requires k < |dirs| && NoRepeats(dirs) && Grid(dirs, grants, before) && |after| == |grants|
    requires forall i :: 0 <= i < |grants| ==> after[i] == Filter(before[i], Outside(dirs[k]))
    ensures Grid(RemoveAt(dirs, k), grants, after) <==> AllAlone(dirs, dirs[k], grants)
  {
    forall i | 0 <= i < |grants|
      ensures after[i] == Row(RemoveAt(dirs, k), grants[i]) <==> Alone(dirs, dirs[k], grants[i])
    {
      RemovalExactWhenAlone(dirs, k, grants[i]);
    }
  }

  lemma RemovedNoRepeats(dirs: seq<string>, k: nat)
    requires k < |dirs| && NoRepeats(dirs)
    ensures NoRepeats(RemoveAt(dirs, k))
  {
  }

  lemma PrefixFreeIsAllAlone(dirs: seq<string>, k: nat, grants: seq<Grant>)
    requires k < |dirs| && PrefixFree(dirs) && CleanIds(grants)
    ensures AllAlone(dirs, dirs[k], grants)
  {
    forall i | 0 <= i < |grants| ensures Alone(dirs, dirs[k], grants[i]) {
      PrefixFreeIsAlone(dirs, dirs[k], grants[i]);
    }
  }

  lemma WidenedKeepsGrid(dirs: seq<string>, grants: seq<Grant>, targets: seq<seq<string>>, i: nat, extra: seq<string>)
    requires i < |grants|
    ensures CleanIds(grants) ==> CleanIds(Widened(grants, i, extra))
    ensures Grid(dirs, grants, targets) ==> Grid(dirs, Widened(grants, i, extra), targets)
  {
    assert Row(dirs, grants[i]) == Row(dirs, Widened(grants, i, extra)[i]);
  }

  lemma RowAdded(dirs: seq<string>, grants: seq<Grant>, targets: seq<seq<string>>, g: Grant)
    requires Grid(dirs, grants, targets)
    ensures Grid(dirs, grants + [g], targets + [Row(dirs, g)])
  {
  }

  lemma GrantRemoved(dirs: seq<string>, grants: seq<Grant>, targets: seq<seq<string>>, i: nat)
    requires i < |grants| == |targets| && CleanIds(grants)
    ensures CleanIds(RemoveAt(grants, i))
    ensures Grid(dirs, grants, targets) ==> Grid(dirs, RemoveAt(grants, i), RemoveAt(targets, i))
    ensures forall j :: 0 <= j < |grants| - 1 ==> RemoveAt(grants, i)[j].docId != grants[i].docId
  {
    forall j | 0 <= j < |grants| - 1
      ensures RemoveAt(grants, i)[j] == grants[if j < i then j else j + 1]
    {
    }
  }

  // In an exact grid over prefix-free directories no two cells share a mount point.
  lemma CellsAreDistinct(dirs: seq<string>, grants: seq<Grant>, i: nat, j: nat, k: nat, l: nat)
    requires PrefixFree(dirs) && NoRepeats(dirs) && CleanIds(grants)
    requires i < |grants| && k < |grants| && j < |dirs| && l < |dirs|
    ensures Row(dirs, grants[i])[j] == Row(dirs, grants[k])[l] ==> i == k && j == l
  {
    TargetsDiffer(dirs[j], grants[i], dirs[l], grants[k]);
    assert i < k ==> grants[i].docId != grants[k].docId;
    assert k < i ==> grants[k].docId != grants[i].docId;
    assert j < l ==> dirs[j] != dirs[l];
    assert l < j ==> dirs[l] != dirs[j];
  }

  // ---------- The store ----------

  predicate Reusable(g: Grant, request: Grant) {
    g.hostPath == request.hostPath && g.isDirectory == request.isDirectory && g.persistent == request.persistent
  }

  // The first grant that serves the request, or |grants|.
  function FirstReusable(grants: seq<Grant>, request: Grant): (i: nat)
    ensures i <= |grants| && (i < |grants| ==> Reusable(grants[i], request))
    ensures forall j :: 0 <= j < i ==> !Reusable(grants[j], request)
  {
    if grants == [] || Reusable(grants[0], request) then 0 else 1 + FirstReusable(grants[1..], request)
  }

  lemma FirstIsOne(grants: seq<Grant>, request: Grant, i: nat)
    requires i <= |grants| && (i < |grants| ==> Reusable(grants[i], request))
    requires forall j :: 0 <= j < i ==> !Reusable(grants[j], request)
    ensures i == FirstReusable(grants, request)
  {
    var k := FirstReusable(grants, request);
    assert forall j :: 0 <= j < k ==> !Reusable(grants[j], request);
  }

  // What the grants are after a request: a reused one is widened even when the
  // request then fails, and a new one is added only when it succeeds.
  function Served(grants: seq<Grant>, request: Grant, reuse: bool, resolved: bool, ok: bool): seq<Grant> {
    var i := FirstReusable(grants, request);
    if resolved && reuse && i < |grants| then Widened(grants, i, request.permissions)
    else if ok then grants + [request] else grants
  }

  function Widened(grants: seq<Grant>, i: nat, extra: seq<string>): (r: seq<Grant>)
    requires i < |grants|
  {
    grants[i := grants[i].(permissions := Merge(grants[i].permissions, extra))]
  }

  // What a request obtained: nothing, a grant already in the store, or a new one
  // that is mounted but not yet registered.
  datatype Created = Failed | Existing(index: nat) | Fresh(grant: Grant, row: seq<string>)

  // Permissions already present keep their order; new ones follow.
  function Merge(have: seq<string>, extra: seq<string>): (r: seq<string>)
    ensures have <= r
    ensures forall p :: p in r <==> p in have || p in extra
    ensures NoRepeats(have) ==> NoRepeats(r)
    decreases |extra|
  {
    if extra == [] then have
    else
      assert extra == [extra[0]] + extra[1..];
      Merge(if extra[0] in have then have else have + [extra[0]], extra[1..])
  }

  class Store {
    const root: string
    // Whether the n-th external operation succeeds.
    const mounts: nat -> bool
    const unmounts: nat -> bool
    const saves: nat -> bool
    var time: nat
    var dirs: seq<string>
    var grants: seq<Grant>
    // targets[i] is the list of mounts recorded in grants[i].
    var targets: seq<seq<string>>
    var mounted: multiset<string>

    // The bookkeeping agrees with the host: every recorded mount, and no other, exists.
    ghost predicate Accounted()
      reads this
    {
      && |targets| == |grants| && CleanIds(grants) && NoRepeats(dirs)
      && Agree(mounted, targets)
    }

    ghost predicate Exact()
      reads this
    {
      Accounted() && Grid(dirs, grants, targets)
    }

    ghost predicate UnmountsWork() {
      forall n :: unmounts(n)
    }

    ghost predicate MountsWork() {
      forall n :: mounts(n)
    }

    ghost predicate SavesWork() {
      forall n :: saves(n)
    }

    constructor (root: string, mounts: nat -> bool, unmounts: nat -> bool, saves: nat -> bool)
      ensures Exact() && grants == [] && dirs == [] && mounted == multiset{}
    {
      this.root, this.mounts, this.unmounts, this.saves := root, mounts, unmounts, saves;
      time, dirs, grants, targets, mounted := 0, [], [], [], multiset{};
    }

    // ---------- Single mounts ----------

    method Mount(path: string) returns (ok: bool)
      modifies this`time, this`mounted
      ensures mounted == if ok then old(mounted) + multiset{path} else old(mounted)
      ensures MountsWork() ==> ok
    {
      ok := mounts(time);
      time := time + 1;
      if ok {
        mounted := mounted + multiset{path};
      }
    }

    method Unmount(path: string) returns (ok: bool)
      modifies this`time, this`mounted
      ensures ok ==> path in old(mounted) && mounted == old(mounted) - multiset{path}
      ensures !ok ==> mounted == old(mounted)
      ensures UnmountsWork() && path in old(mounted) ==> ok
    {
      ok := unmounts(time) && path in mounted;
      time := time + 1;
      if ok {
        mounted := mounted - multiset{path};
      }
    }

    method DetachAt(left: seq<string>, j: nat, ghost before: multiset<string>, ghost row: seq<string>)
      returns (gone: bool, rest: seq<string>)
      requires j < |left| && Moved(before, row, mounted, left) && Holds(before, row)
      modifies this`time, this`mounted
      ensures Moved(before, row, mounted, rest)
      ensures rest == if gone then RemoveAt(left, j) else left
      ensures UnmountsWork() ==> gone
    {
      MovedOne(before, row, mounted, left, j);
      gone := Unmount(left[j]);
      rest := if gone then RemoveAt(left, j) else left;
    }

    // Walk a row backwards, detaching what fails keep; what cannot be detached stays recorded.
    method Detach(row: seq<string>, keep: string -> bool) returns (left: seq<string>, complete: bool)
      requires Holds(mounted, row)
      modifies this`time, this`mounted
      ensures Moved(old(mounted), row, mounted, left)
      ensures Filter(left, keep) == Filter(row, keep)
      ensures complete ==> left == Filter(row, keep)
      ensures UnmountsWork() ==> complete
    {
      left, complete := row, true;
      var j: nat := |row|;
      while j > 0
        invariant Swept(row, keep, j, left, complete)
        invariant Moved(old(mounted), row, mounted, left)
        invariant UnmountsWork() ==> complete
      {
        j := j - 1;
        if keep(left[j]) {
          SweptKeeps(row, keep, j, left, complete, complete);
        } else {
          ghost var was := left;
          var gone;
          gone, left := DetachAt(left, j, old(mounted), row);
          if gone {
            SweptDrops(row, keep, j, was, complete);
          } else {
            SweptKeeps(row, keep, j, was, complete, false);
            complete := false;
          }
        }
      }
      SweptAll(row, keep, left, complete);
    }

    // cleanup_grant: every mount of one grant goes.
    method Cleanup(row: seq<string>) returns (left: seq<string>)
      requires Holds(mounted, row)
      modifies this`time, this`mounted
      ensures Moved(old(mounted), row, mounted, left)
      ensures UnmountsWork() ==> left == []
    {
      var complete;
      left, complete := Detach(row, Nothing());
      FilterNothing(row);
    }

    // ---------- Columns: sandboxes ----------

    method DetachRow(i: nat, keep: string -> bool) returns (complete: bool)
      requires Accounted() && i < |targets|
      modifies this`time, this`mounted, this`targets
      ensures Accounted()
      ensures targets == old(targets)[i := targets[i]]
      ensures Filter(targets[i], keep) == Filter(old(targets)[i], keep)
      ensures complete ==> targets[i] == Filter(old(targets)[i], keep)
      ensures UnmountsWork() ==> complete
    {
      RowHeld(mounted, targets, i);
      ghost var before := mounted;
      var left;
      left, complete := Detach(targets[i], keep);
      RowReplaced(before, targets, i, mounted, left);
      targets := targets[i := left];
    }

    method RemoveSandboxGrants(dir: string) returns (complete: bool)
      requires Accounted()
      modifies this`time, this`mounted, this`targets
      ensures Accounted()
      ensures forall i :: 0 <= i < |targets| ==>
        Filter(targets[i], Outside(dir)) == Filter(old(targets)[i], Outside(dir))
      ensures complete ==> forall i :: 0 <= i < |targets| ==> targets[i] == Filter(old(targets)[i], Outside(dir))
      ensures UnmountsWork() ==> complete
    {
      complete := true;
      for i := 0 to |grants|
        invariant Accounted()
        invariant forall j :: i <= j < |targets| ==> targets[j] == old(targets)[j]
        invariant forall j :: 0 <= j < i ==>
          Filter(targets[j], Outside(dir)) == Filter(old(targets)[j], Outside(dir))
        invariant complete ==> forall j :: 0 <= j < i ==> targets[j] == Filter(old(targets)[j], Outside(dir))
        invariant UnmountsWork() ==> complete
      {
        var all := DetachRow(i, Outside(dir));
        complete := complete && all;
      }
    }

    method FindDir(dir: string) returns (k: nat)
      ensures k <= |dirs| && (k < |dirs| ==> dirs[k] == dir) && (k == |dirs| ==> dir !in dirs)
    {
      k := 0;
      while k < |dirs| && dirs[k] != dir
        invariant k <= |dirs| && dir !in dirs[..k]
      {
        k := k + 1;
      }
    }

    method MountIn(dir: string, i: nat) returns (ok: bool)
      requires Accounted() && i < |grants|
      modifies this`time, this`mounted, this`targets
      ensures Accounted()
      ensures targets == if ok then old(targets)[i := old(targets)[i] + [Target(dir, grants[i])]] else old(targets)
      ensures MountsWork() ==> ok
    {
      var path := Target(dir, grants[i]);
      ghost var before := mounted;
      ok := Mount(path);
      if ok {
        MovedMore(targets[i], path);
        RowReplaced(before, targets, i, mounted, targets[i] + [path]);
        targets := targets[i := targets[i] + [path]];
      }
    }

    // Mount every grant under dir, stopping at the first failure.
    method MountAll(dir: string) returns (ok: bool, done: nat)
      requires Accounted()
      modifies this`time, this`mounted, this`targets
      ensures Accounted() && done <= |grants| && (ok <==> done == |grants|)
      ensures forall i :: 0 <= i < |grants| ==>
        targets[i] == if i < done then old(targets)[i] + [Target(dir, grants[i])] else old(targets)[i]
      ensures MountsWork() ==> ok
    {
      done := 0;
      while done < |grants|
        invariant Accounted() && done <= |grants|
        invariant forall i :: 0 <= i < |grants| ==>
          targets[i] == if i < done then old(targets)[i] + [Target(dir, grants[i])] else old(targets)[i]
      {
        var here := MountIn(dir, done);
        if !here {
          return false, done;
        }
        done := done + 1;
      }
      ok := true;
    }

    // A sandbox joins with every grant mounted, or not at all. A failure leaves
    // everything as before exactly when no old mount lies under the new directory
    // and the new mounts do.
    method AddSandbox(dir: string) returns (ok: bool, ghost reached: nat)
      requires Accounted()
      modifies this`time, this`mounted, this`targets, this`dirs
      ensures Accounted()
      ensures dirs == if ok && dir !in old(dirs) then old(dirs) + [dir] else old(dirs)
      ensures ok ==> DirAllowed(root, dir)
      ensures DirAllowed(root, dir) && (MountsWork() || dir in old(dirs)) ==> ok
      ensures !DirAllowed(root, dir) || dir in old(dirs) ==> targets == old(targets) && mounted == old(mounted)
      ensures old(Exact()) && ok ==> Exact()
      ensures old(Exact()) && UnmountsWork() && DirAllowed(root, dir) && !ok ==>
        (Exact() <==> RollsBack(dirs, dir, grants, reached))
      ensures old(Exact()) && Exact() && !ok ==> targets == old(targets) && mounted == old(mounted)
      ensures old(Exact()) && UnmountsWork() && PrefixFree(old(dirs) + [dir]) ==> Exact()
    {
      reached := 0;
      if !DirAllowed(root, dir) {
        return false, reached;
      }
      var k := FindDir(dir);
      if k < |dirs| {
        return true, reached;
      }
      var done;
      ok, done := MountAll(dir);
      reached := done;
      if ok {
        if old(Exact()) {
          ColumnAdded(dirs, dir, grants, old(targets), targets);
        }
        dirs := dirs + [dir];
      } else {
        RollBack(dir, done, old(targets), old(mounted));
      }
    }

    // Detach a directory again after some of its mounts were made.
    method RollBack(dir: string, ghost done: nat, ghost before: seq<seq<string>>, ghost was: multiset<string>)
      requires Accounted() && dir !in dirs && |before| == |grants| && Agree(was, before)
      requires forall i :: 0 <= i < |grants| ==>
        targets[i] == if i < done then before[i] + [Target(dir, grants[i])] else before[i]
      modifies this`time, this`mounted, this`targets
      ensures Accounted()
      ensures Grid(dirs, grants, before) && UnmountsWork() ==>
        (Exact() <==> RollsBack(dirs, dir, grants, done))
      ensures Grid(dirs, grants, before) && Exact() ==> targets == before && mounted == was
      ensures Grid(dirs, grants, before) && UnmountsWork() && PrefixFree(dirs + [dir]) ==> Exact()
    {
      ghost var partial := targets;
      var complete := RemoveSandboxGrants(dir);
      if Grid(dirs, grants, before) {
        if complete {
          ColumnRollsBackExactly(dirs, dir, grants, before, done, partial, targets);
        }
        if PrefixFree(dirs + [dir]) {
          PrefixFreeRollsBack(dirs, dir, grants, done);
        }
        if Exact() {
          assert targets == before;
          SameRecordsSameMounts(was, mounted, targets);
        } else {
          assert targets != before;
        }
      }
    }

    // A sandbox leaves. The grid survives exactly when no other directory mounts below it.
    method RemoveSandbox(dir: string) returns (ok: bool)
      requires Accounted()
      modifies this`time, this`mounted, this`targets, this`dirs
      ensures Accounted()
      ensures UnmountsWork() ==> ok
      ensures dirs == if ok then Filter(old(dirs), NotDir(dir)) else old(dirs)
      ensures dir !in old(dirs) ==> ok && targets == old(targets) && mounted == old(mounted)
      ensures !ok ==> OthersStay(dir, old(targets), targets)
      ensures old(Exact()) && ok && dir in old(dirs) ==> (Exact() <==> AllAlone(old(dirs), dir, grants))
      ensures old(Exact()) && ok && PrefixFree(old(dirs)) ==> Exact()
    {
      var k := FindDir(dir);
      if k == |dirs| {
        FilterAll(dirs, NotDir(dir));
        return true;
      }
      FilterIsRemoveAt(dirs, k);
      if PrefixFree(dirs) {
        PrefixFreeIsAllAlone(dirs, k, grants);
      }
      ok := Leave(k);
    }

    method Leave(k: nat) returns (ok: bool)
      requires Accounted() && k < |dirs|
      modifies this`time, this`mounted, this`targets, this`dirs
      ensures Accounted()
      ensures UnmountsWork() ==> ok
      ensures dirs == if ok then RemoveAt(old(dirs), k) else old(dirs)
      ensures !ok ==> OthersStay(old(dirs)[k], old(targets), targets)
      ensures old(Exact()) && ok ==> (Exact() <==> AllAlone(old(dirs), old(dirs)[k], grants))
    {
      ok := RemoveSandboxGrants(dirs[k]);
      if ok {
        if old(Exact()) {
          ColumnRemoved(dirs, k, grants, old(targets), targets);
        }
        RemovedNoRepeats(dirs, k);
        dirs := RemoveAt(dirs, k);
      }
    }

    // ---------- Rows: grants ----------

    // Mount at each path in turn, stopping at the first failure.
    method MountRow(paths: seq<string>) returns (ok: bool, row: seq<string>)
      modifies this`time, this`mounted
      ensures Moved(old(mounted), [], mounted, row)
      ensures ok ==> row == paths
      ensures MountsWork() ==> ok
    {
      row := [];
      for i := 0 to |paths|
        invariant row == paths[..i]
        invariant Moved(old(mounted), [], mounted, row)
      {
        assert paths[..i + 1] == paths[..i] + [paths[i]];
        ok, row := MountOnto(row, paths[i], old(mounted));
        if !ok {
          return;
        }
      }
      ok := true;
    }

    method MountOnto(row: seq<string>, path: string, ghost before: multiset<string>)
      returns (ok: bool, longer: seq<string>)
      requires Moved(before, [], mounted, row)
      modifies this`time, this`mounted
      ensures Moved(before, [], mounted, longer)
      ensures longer == if ok then row + [path] else row
      ensures MountsWork() ==> ok
    {
      MovedSnoc(before, mounted, row, path);
      ok := Mount(path);
      longer := if ok then row + [path] else row;
    }

    // Mount a new grant in every sandbox; on failure take back what was mounted.
    // kind is what stat found (Some(true) a directory, Some(false) a regular file),
    // placed whether the placeholder could be made.
    method Prepare(grant: Grant, kind: Option<bool>, placed: bool) returns (made: Created)
      modifies this`time, this`mounted
      ensures !made.Existing?
      ensures made.Fresh? ==> made.grant == grant && made.row == Row(dirs, grant) && kind == Some(grant.isDirectory)
      ensures made.Fresh? ==> Moved(old(mounted), [], mounted, made.row)
      ensures made.Failed? && UnmountsWork() ==> mounted == old(mounted)
      ensures MountsWork() && kind == Some(grant.isDirectory) && placed ==> made.Fresh?
    {
      if kind != Some(grant.isDirectory) || !placed {
        return Failed;
      }
      var ok, row := MountRow(Row(dirs, grant));
      if ok {
        return Fresh(grant, row);
      }
      ghost var before := mounted;
      RowAppendedHeld(old(mounted), mounted, row);
      var left := Cleanup(row);
      if UnmountsWork() {
        TakenBack(old(mounted), before, mounted, row);
      }
      made := Failed;
    }

    method FindReusable(request: Grant) returns (i: nat)
      ensures i == FirstReusable(grants, request)
    {
      i := 0;
      while i < |grants| && !Reusable(grants[i], request)
        invariant i <= |grants|
        invariant forall j :: 0 <= j < i ==> !Reusable(grants[j], request)
      {
        i := i + 1;
      }
      FirstIsOne(grants, request, i);
    }

    // A reused grant only gains permissions; its mounts stay as they are.
    method Create(request: Grant, resolved: bool, reuse: bool, kind: Option<bool>, placed: bool)
      returns (made: Created)
      modifies this`time, this`mounted, this`grants
      ensures made.Existing? <==> resolved && reuse && FirstReusable(old(grants), request) < |old(grants)|
      ensures made.Existing? ==> made.index == FirstReusable(old(grants), request) && mounted == old(mounted)
      ensures made.Fresh? ==> resolved
      ensures made.Existing? ==> grants == Widened(old(grants), made.index, request.permissions)
      ensures !made.Existing? ==> grants == old(grants)
      ensures made.Fresh? ==> made.grant == request && made.row == Row(dirs, request)
      ensures made.Fresh? ==> Moved(old(mounted), [], mounted, made.row)
      ensures made.Failed? && UnmountsWork() ==> mounted == old(mounted)
      ensures MountsWork() && resolved && kind == Some(request.isDirectory) && placed ==> !made.Failed?
    {
      if !resolved {
        return Failed;
      }
      if reuse {
        var i := FindReusable(request);
        if i < |grants| {
          grants := Widened(grants, i, request.permissions);
          return Existing(i);
        }
      }
      made := Prepare(request, kind, placed);
    }

    method Save() returns (ok: bool)
      modifies this`time
      ensures SavesWork() ==> ok
    {
      ok := saves(time);
      time := time + 1;
    }

    // A new grant enters the store and, if it cannot be saved, leaves again.
    method Register(grant: Grant, row: seq<string>) returns (ok: bool)
      requires |targets| == |grants| && NoRepeats(dirs) && CleanIds(grants) && CleanIds(grants + [grant])
      requires Agree(mounted, targets + [row])
      modifies this`time, this`mounted, this`grants, this`targets
      ensures ok ==> Accounted() && grants == old(grants) + [grant] && targets == old(targets) + [row]
      ensures ok ==> mounted == old(mounted)
      ensures !ok ==> grant.persistent && grants == old(grants) && targets == old(targets)
      ensures UnmountsWork() ==> Accounted()
      ensures SavesWork() || !grant.persistent ==> ok
    {
      var n := |grants|;
      grants, targets := grants + [grant], targets + [row];
      if !grant.persistent {
        return true;
      }
      ok := Save();
      if !ok {
        var left := CleanupAt(n);
        grants, targets := RemoveAt(grants, n), RemoveAt(targets, n);
      }
    }

    // Take down one recorded row; the caller then drops the record, and forgets
    // whatever could not be detached.
    method CleanupAt(i: nat) returns (left: seq<string>)
      requires i < |targets| && Agree(mounted, targets)
      modifies this`time, this`mounted
      ensures Moved(old(mounted), targets[i], mounted, left)
      ensures AgreeBut(mounted, RemoveAt(targets, i), left)
      ensures Agree(mounted, RemoveAt(targets, i)) <==> left == []
      ensures UnmountsWork() ==> left == []
    {
      RowHeld(mounted, targets, i);
      left := Cleanup(targets[i]);
      RowForgotten(old(mounted), targets, i, mounted, left);
    }

    // One request to share a document: create or reuse, then register.
    method Share(request: Grant, resolved: bool, reuse: bool, kind: Option<bool>, placed: bool)
      returns (ok: bool)
      requires Exact() && CleanIds(grants + [request])
      modifies this`time, this`mounted, this`grants, this`targets
      ensures ok || UnmountsWork() ==> Exact()
      ensures grants == Served(old(grants), request, reuse, resolved, ok)
      ensures !ok && UnmountsWork() ==> mounted == old(mounted) && targets == old(targets)
      ensures MountsWork() && SavesWork() && resolved && kind == Some(request.isDirectory) && placed ==> ok
    {
      var made := Create(request, resolved, reuse, kind, placed);
      match made
      case Failed =>
        ok := false;
      case Existing(i) =>
        ok := true;
        if grants[i].persistent {
          ok := Save();
        }
        WidenedKeepsGrid(dirs, old(grants), targets, i, request.permissions);
      case Fresh(grant, row) =>
        ok := RegisterFresh(grant, old(mounted));
    }

    // Register the grant that was just mounted in every sandbox.
    method RegisterFresh(grant: Grant, ghost before: multiset<string>) returns (ok: bool)
      requires |targets| == |grants| && NoRepeats(dirs) && CleanIds(grants) && CleanIds(grants + [grant])
      requires Agree(before, targets) && Moved(before, [], mounted, Row(dirs, grant)) && Grid(dirs, grants, targets)
      modifies this`time, this`mounted, this`grants, this`targets
      ensures ok || UnmountsWork() ==> Exact()
      ensures grants == if ok then old(grants) + [grant] else old(grants)
      ensures !ok && UnmountsWork() ==> mounted == before && targets == old(targets)
      ensures SavesWork() ==> ok
    {
      var row := Row(dirs, grant);
      RowAppended(before, targets, mounted, row);
      RowAdded(dirs, grants, targets, grant);
      ok := Register(grant, row);
      if !ok && UnmountsWork() {
        SameRecordsSameMounts(before, mounted, targets);
      }
    }

    // Take a grant out of the store; mounts that cannot be detached are forgotten.
    method Drop(i: nat) returns (forgotten: seq<string>)
      requires Accounted() && i < |grants|
      modifies this`time, this`mounted, this`grants, this`targets
      ensures grants == RemoveAt(old(grants), i) && targets == RemoveAt(old(targets), i)
      ensures forall j :: 0 <= j < |grants| ==> grants[j].docId != old(grants)[i].docId
      ensures AgreeBut(mounted, targets, forgotten)
      ensures Moved(old(mounted), old(targets)[i], mounted, forgotten)
      ensures Accounted() <==> forgotten == []
      ensures old(Exact()) ==> (Exact() <==> forgotten == [])
      ensures UnmountsWork() ==> forgotten == []
    {
      GrantRemoved(dirs, grants, targets, i);
      forgotten := CleanupAt(i);
      grants, targets := RemoveAt(grants, i), RemoveAt(targets, i);
    }

    // The grant leaves the store whether or not the store can be saved. The store
    // still agrees with the host exactly when no mount of the grant had to be forgotten.
    method Delete(id: string) returns (ok: bool, forgotten: seq<string>)
      requires Accounted()
      modifies this`time, this`mounted, this`grants, this`targets
      ensures forall j :: 0 <= j < |grants| ==> grants[j].docId != id
      ensures SavesWork() ==> (ok <==> FindGrant(old(grants), id) < |old(grants)|)
      ensures FindGrant(old(grants), id) == |old(grants)| ==>
        !ok && forgotten == [] && grants == old(grants) && targets == old(targets) && mounted == old(mounted)
      ensures var i := FindGrant(old(grants), id); i < |old(grants)| ==>
        && grants == RemoveAt(old(grants), i) && targets == RemoveAt(old(targets), i)
        && Moved(old(mounted), old(targets)[i], mounted, forgotten)
      ensures AgreeBut(mounted, targets, forgotten) && (Accounted() <==> forgotten == [])
      ensures old(Exact()) ==> (Exact() <==> forgotten == [])
      ensures UnmountsWork() ==> forgotten == []
    {
      forgotten := [];
      var i := FindGrant(grants, id);
      if i == |grants| {
        return false, [];
      }
      forgotten := Drop(i);
      ok := Save();
    }
  }
}
