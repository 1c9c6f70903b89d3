// Fitting the columns of a listing to the terminal: the widest columns give way
// first, one cell at a time, so that every line fits and the columns stay aligned.
module ListTable {
  import opened Collections

  const COLUMN_SPACING: nat := 4
  const ELLIPSIS: char := '\U{2026}'

  function Min(a: nat, b: nat): nat {
    if a <= b then a else b
  }

  function Less(a: nat, b: nat): nat {
    if a <= b then 0 else a - b
  }

  function Sum(s: seq<nat>): nat {
    if s == [] then 0 else s[0] + Sum(s[1..])
  }

  lemma {:induction false} SumUpdate(s: seq<nat>, i: nat, v: nat)
    requires i < |s|
    ensures Sum(s[i := v]) + s[i] == Sum(s) + v
  {
    if i == 0 {
      assert s[0 := v][1..] == s[1..];
    } else {
      SumUpdate(s[1..], i - 1, v);
      assert s[i := v][1..] == s[1..][i - 1 := v];
    }
  }

  lemma {:induction false} SumZero(s: seq<nat>)
    ensures Sum(s) == 0 <==> forall i :: 0 <= i < |s| ==> s[i] == 0
  {
    if s != [] {
      SumZero(s[1..]);
      assert forall i :: 0 < i < |s| ==> s[i] == s[1..][i - 1];
    }
  }

  // Position by position less, and somewhere strictly, is less in total.
  lemma {:induction false} SumMonotone(a: seq<nat>, b: seq<nat>)
    requires |a| == |b| && forall i :: 0 <= i < |a| ==> a[i] <= b[i]
    ensures Sum(a) <= Sum(b)
    ensures a != b ==> Sum(a) < Sum(b)
  {
    if a != [] {
      SumMonotone(a[1..], b[1..]);
      assert a == [a[0]] + a[1..] && b == [b[0]] + b[1..];
    }
  }

  lemma {:induction false} SumAtLeast(s: seq<nat>, v: nat)
    requires forall i :: 0 <= i < |s| ==> s[i] <= v
    ensures Sum(s) <= |s| * v
    ensures (exists i :: 0 <= i < |s| && s[i] < v) ==> Sum(s) < |s| * v
  {
    if s != [] {
      SumAtLeast(s[1..], v);
      assert |s| * v == v + |s[1..]| * v;
      if i :| 0 <= i < |s| && s[i] < v {
        assert i > 0 ==> s[1..][i - 1] < v;
      }
    }
  }

  // ---------- Fitting ----------

  function SpacingFor(columns: nat, terminal: nat): nat {
    var separators := Less(columns, 1);
    Min(COLUMN_SPACING, if separators == 0 then 0 else Less(terminal, columns) / separators)
  }

  function AvailableFor(columns: nat, terminal: nat): nat {
    Less(terminal, SpacingFor(columns, terminal) * Less(columns, 1))
  }

  // The separators leave every column a cell whenever the terminal has that many.
  lemma SeparatorsFit(columns: nat, terminal: nat)
    ensures SpacingFor(columns, terminal) * Less(columns, 1) <= Less(terminal, columns)
    ensures AvailableFor(columns, terminal) + SpacingFor(columns, terminal) * Less(columns, 1) == terminal
    ensures columns <= terminal ==> columns <= AvailableFor(columns, terminal)
  {
    var separators, spacing := Less(columns, 1), SpacingFor(columns, terminal);
    if separators > 0 {
      var q := Less(terminal, columns) / separators;
      assert q * separators <= Less(terminal, columns);
      Scaled(spacing, q, separators);
    }
  }

  lemma Scaled(a: nat, b: nat, k: nat)
    requires a <= b
    ensures a * k <= b * k
  {
  }

  // A column that gave way is within one cell of the widest column, and of the
  // columns it ties with the last ones give way first.
  ghost predicate Level(now: seq<nat>, was: seq<nat>) {
    && |now| == |was|
    && (forall i :: 0 <= i < |now| ==> now[i] <= was[i])
    && (forall i, j :: 0 <= i < |now| && 0 <= j < |now| && now[i] < was[i] ==> now[j] <= now[i] + 1)
    && forall i, j :: 0 <= i < j < |now| && now[i] < was[i] ==> now[j] <= now[i]
  }

  // Those two rules and the total leave exactly one way to fit.
  lemma LevelIsUnique(a: seq<nat>, b: seq<nat>, was: seq<nat>)
    requires Level(a, was) && Level(b, was) && Sum(a) == Sum(b)
    ensures a == b
  {
    if forall i :: 0 <= i < |a| ==> a[i] <= b[i] {
      SumMonotone(a, b);
    } else if forall i :: 0 <= i < |a| ==> b[i] <= a[i] {
      SumMonotone(b, a);
    } else {
      var i :| 0 <= i < |a| && a[i] > b[i];
      var j :| 0 <= j < |a| && b[j] > a[j];
      NeverBothWays(a, b, was, i, j);
    }
  }

  lemma NeverBothWays(a: seq<nat>, b: seq<nat>, was: seq<nat>, i: nat, j: nat)
    requires Level(a, was) && Level(b, was) && i < |a| && j < |a|
    requires a[i] > b[i]
    ensures b[j] <= a[j]
  {
    assert b[i] < was[i] && b[j] <= b[i] + 1;
    assert a[j] < was[j] ==> a[i] <= a[j] + 1;
  }

  // Every column keeps a cell when there is one for each.
  lemma LevelKeepsCells(now: seq<nat>, was: seq<nat>)
    requires Level(now, was) && Sum(now) >= |now|
    requires forall i :: 0 <= i < |was| ==> was[i] >= 1
    ensures forall i :: 0 <= i < |now| ==> now[i] >= 1
  {
    if k :| 0 <= k < |now| && now[k] == 0 {
      assert now[k] < was[k];
      SumAtLeast(now, 1);
    }
  }

  lemma {:induction false} AtLeastOneEach(s: seq<nat>)
    requires forall i :: 0 <= i < |s| ==> s[i] >= 1
    ensures Sum(s) >= |s|
  {
    if s != [] {
      AtLeastOneEach(s[1..]);
    }
  }

  // Taking a cell from the last widest column keeps the columns level.
  lemma NarrowKeepsLevel(now: seq<nat>, was: seq<nat>, k: nat)
    requires Level(now, was) && k < |now| && now[k] > 0
    requires forall j :: 0 <= j < |now| ==> now[j] <= now[k]
    requires forall j :: k < j < |now| ==> now[j] < now[k]
    ensures Level(now[k := now[k] - 1], was)
  {
  }

  method Widest(widths: array<nat>) returns (index: Option<nat>)
    ensures index.None? <==> forall j :: 0 <= j < widths.Length ==> widths[j] == 0
    ensures index.Some? ==> index.value < widths.Length && widths[index.value] > 0
    ensures index.Some? ==> forall j :: 0 <= j < widths.Length ==> widths[j] <= widths[index.value]
    ensures index.Some? ==> forall j :: index.value < j < widths.Length ==> widths[j] < widths[index.value]
  {
    index := None;
    for i := 0 to widths.Length
      invariant index.None? <==> forall j :: 0 <= j < i ==> widths[j] == 0
      invariant index.Some? ==> index.value < i && widths[index.value] > 0
      invariant index.Some? ==> forall j :: 0 <= j < i ==> widths[j] <= widths[index.value]
      invariant index.Some? ==> forall j :: index.value < j < i ==> widths[j] < widths[index.value]
    {
      if widths[i] > 0 && (index.None? || widths[i] >= widths[index.value]) {
        index := Some(i);
      }
    }
  }

  method Shrink(widths: array<nat>, available: nat)
    modifies widths
    ensures Level(widths[..], old(widths[..]))
    ensures Sum(widths[..]) == Min(Sum(old(widths[..])), available)
  {
    while Sum(widths[..]) > available
      invariant Level(widths[..], old(widths[..]))
      invariant Sum(widths[..]) >= Min(Sum(old(widths[..])), available)
      invariant Sum(widths[..]) <= Sum(old(widths[..]))
      decreases Sum(widths[..])
    {
      var index := Widest(widths);
      ghost var before := widths[..];
      SumZero(before);
      if index.None? {
        break;
      }
      var k := index.value;
      NarrowKeepsLevel(before, old(widths[..]), k);
      SumUpdate(before, k, before[k] - 1);
      widths[k] := widths[k] - 1;
      assert widths[..] == before[k := before[k] - 1];
    }
  }

  // The columns and their separators fit the terminal, no column disappears while
  // there is a cell for each, and the widths are the unique level ones.
  method FitWidths(widths: array<nat>, terminal: Option<nat>) returns (spacing: nat)
    modifies widths
    ensures terminal.None? ==> spacing == COLUMN_SPACING && widths[..] == old(widths[..])
    ensures Level(widths[..], old(widths[..]))
    ensures terminal.Some? ==> spacing == SpacingFor(widths.Length, terminal.value)
    ensures terminal.Some? ==>
      Sum(widths[..]) == Min(Sum(old(widths[..])), AvailableFor(widths.Length, terminal.value))
    ensures terminal.Some? ==> Sum(widths[..]) + spacing * Less(widths.Length, 1) <= terminal.value
    ensures terminal.Some? && widths.Length <= terminal.value
        && (forall i :: 0 <= i < widths.Length ==> old(widths[i]) >= 1)
        ==> forall i :: 0 <= i < widths.Length ==> widths[i] >= 1
  {
    if terminal.None? {
      return COLUMN_SPACING;
    }
    spacing := SpacingFor(widths.Length, terminal.value);
    SeparatorsFit(widths.Length, terminal.value);
    ghost var was := widths[..];
    Shrink(widths, AvailableFor(widths.Length, terminal.value));
    if widths.Length <= terminal.value && forall i :: 0 <= i < |was| ==> was[i] >= 1 {
      AtLeastOneEach(was);
      LevelKeepsCells(widths[..], was);
    }
  }

  // ---------- Writing a line ----------

  function Spaces(n: nat): (s: string)
    ensures |s| == n && forall c :: c in s ==> c == ' '
  {
    if n == 0 then "" else [' '] + Spaces(n - 1)
  }

  function Truncate(value: string, width: nat): (r: string)
    ensures |r| == Min(|value|, width)
    ensures |value| <= width ==> r == value
    ensures |value| > width > 0 ==> r[..width - 1] == value[..width - 1] && r[width - 1] == ELLIPSIS
  {
    if |value| <= width then value
    else if width == 0 then ""
    else value[..width - 1] + [ELLIPSIS]
  }

  // A cell that is not the last one of its line fills its column.
  function Padded(value: string, width: nat): (r: string)
    ensures |r| == width && Truncate(value, width) <= r
  {
    Truncate(value, width) + Spaces(Less(width, |Truncate(value, width)|))
  }

  // Where column k begins.
  function Offset(widths: seq<nat>, spacing: nat, k: nat): nat
    requires k <= |widths|
  {
    if k == 0 then 0 else Offset(widths, spacing, k - 1) + widths[k - 1] + spacing
  }

  lemma {:induction false} OffsetIsSum(widths: seq<nat>, spacing: nat, k: nat)
    requires k <= |widths|
    ensures Offset(widths, spacing, k) == Sum(widths[..k]) + spacing * k
  {
    if k > 0 {
      OffsetIsSum(widths, spacing, k - 1);
      SumSnoc(widths[..k - 1], widths[k - 1]);
      assert widths[..k] == widths[..k - 1] + [widths[k - 1]];
    }
  }

  lemma {:induction false} SumSnoc(s: seq<nat>, v: nat)
    ensures Sum(s + [v]) == Sum(s) + v
  {
    if s == [] {
      assert (s + [v])[1..] == [];
    } else {
      SumSnoc(s[1..], v);
      assert (s + [v])[1..] == s[1..] + [v];
    }
  }

  ghost predicate StandsAt(line: string, cell: string, offset: nat) {
    offset + |cell| <= |line| && line[offset..offset + |cell|] == cell
  }

  ghost predicate CellAt(line: string, values: seq<string>, widths: seq<nat>, spacing: nat, k: nat)
    requires k < |values| <= |widths|
  {
    StandsAt(line, Truncate(values[k], widths[k]), Offset(widths, spacing, k))
  }

  ghost predicate Written(line: string, values: seq<string>, widths: seq<nat>, spacing: nat, n: nat)
    requires n <= |values| <= |widths|
  {
    forall k :: 0 <= k < n ==> CellAt(line, values, widths, spacing, k)
  }

  lemma WrittenMore(line: string, more: string, values: seq<string>, widths: seq<nat>, spacing: nat, n: nat)
    requires n <= |values| <= |widths| && Written(line, values, widths, spacing, n)
    ensures Written(line + more, values, widths, spacing, n)
  {
    forall k | 0 <= k < n ensures CellAt(line + more, values, widths, spacing, k) {
      assert CellAt(line, values, widths, spacing, k);
      Extended(line, line + more, Truncate(values[k], widths[k]), Offset(widths, spacing, k));
    }
  }

  lemma WrittenNext(line: string, cell: string, values: seq<string>, widths: seq<nat>, spacing: nat, n: nat)
    requires n < |values| <= |widths| && Written(line, values, widths, spacing, n)
    requires |line| == Offset(widths, spacing, n) && Truncate(values[n], widths[n]) <= cell
    ensures Written(line + cell, values, widths, spacing, n + 1)
  {
    WrittenMore(line, cell, values, widths, spacing, n);
    Placed(line, cell, Truncate(values[n], widths[n]));
    assert CellAt(line + cell, values, widths, spacing, n);
  }

  lemma Placed(line: string, cell: string, text: string)
    requires text <= cell
    ensures StandsAt(line + cell, text, |line|)
  {
    assert (line + cell)[|line|..] == cell;
    assert (line + cell)[|line|..|line| + |text|] == cell[..|text|];
  }

  method WriteCell(line: string, values: seq<string>, widths: seq<nat>, spacing: nat, i: nat)
    returns (longer: string)
    requires i < |values| <= |widths|
    requires Written(line, values, widths, spacing, i) && |line| == Offset(widths, spacing, i)
    ensures Written(longer, values, widths, spacing, i + 1)
    ensures |longer| ==
      |line| + if i + 1 < |values| then widths[i] else |Truncate(values[i], widths[i])|
  {
    var cell := if i + 1 < |values| then Padded(values[i], widths[i]) else Truncate(values[i], widths[i]);
    WrittenNext(line, cell, values, widths, spacing, i);
    longer := line + cell;
  }

  // Each value stands, cut to its column's width, at its column's offset.
  method WriteTableLine(values: seq<string>, widths: seq<nat>, spacing: nat) returns (line: string)
    requires |values| <= |widths|
    ensures Written(line, values, widths, spacing, |values|)
    ensures values != [] ==> var last := |values| - 1;
      |line| == Offset(widths, spacing, last) + |Truncate(values[last], widths[last])| + 1
    ensures line != "" && line[|line| - 1] == '\n'
  {
    line := "";
    for i := 0 to |values|
      invariant 0 < i < |values| ==> |line| + spacing == Offset(widths, spacing, i)
      invariant 0 < i == |values| ==>
        |line| == Offset(widths, spacing, i - 1) + |Truncate(values[i - 1], widths[i - 1])|
      invariant i == 0 ==> line == ""
      invariant Written(line, values, widths, spacing, i)
    {
      if i > 0 {
        WrittenMore(line, Spaces(spacing), values, widths, spacing, i);
        line := line + Spaces(spacing);
      }
      line := WriteCell(line, values, widths, spacing, i);
    }
    WrittenMore(line, "\n", values, widths, spacing, |values|);
    line := line + "\n";
  }

  lemma Extended(line: string, longer: string, cell: string, offset: nat)
    requires line <= longer && StandsAt(line, cell, offset)
    ensures StandsAt(longer, cell, offset)
  {
    assert longer[offset..offset + |cell|] == longer[..|line|][offset..offset + |cell|];
  }

  // A line over fitted widths, without its newline, is no longer than the terminal is wide.
  lemma LineFits(widths: seq<nat>, spacing: nat, terminal: nat, last: nat, cell: string)
    requires last == |widths| - 1 && |cell| <= widths[last]
    requires Sum(widths) + spacing * Less(|widths|, 1) <= terminal
    ensures Offset(widths, spacing, last) + |cell| <= terminal
  {
    OffsetIsSum(widths, spacing, last);
    SumSnoc(widths[..last], widths[last]);
    assert widths[..last] + [widths[last]] == widths;
  }
}
