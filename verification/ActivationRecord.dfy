// The state file of a network activation: what is written ahead of each host
// change, and which of those files a later run is able to load.
module ActivationRecord {
  import opened Collections
  import opened Text

  const MAX_FILE: nat := 1024 * 1024
  const NAME_SIZE: nat := 16

  datatype Family = V4 | V6
  datatype Route = Route(family: Family, destination: string, gateway: string)
  datatype Record = Record(uid: nat, pid: nat, iface: string, rename: Option<string>, routes: seq<Route>)

  // The platform's inet_pton, as a test of validity.
  type AddressTest = (Family, string) -> bool

  // ---------- Names ----------

  predicate Alphanumeric(c: char) {
    '0' <= c <= '9' || 'a' <= c <= 'z' || 'A' <= c <= 'Z'
  }

  predicate ValidName(s: string) {
    0 < |s| < NAME_SIZE && forall c :: c in s ==> Alphanumeric(c)
  }

  // FreeBSD's cloner only accepts wg followed by digits.
  predicate CloneName(s: string) {
    ValidName(s) && "wg" <= s && |s| > 2 && forall c :: c in s[2..] ==> IsDigit(c)
  }

  predicate ManagedName(s: string) {
    ValidName(s) && ("fwg" <= s || "epair" <= s)
  }

  // An address may carry an interface scope, and only in IPv6.
  predicate ValidAddress(pton: AddressTest, family: Family, s: string) {
    var i := IndexOf(s, '%');
    s != "" && if i == |s| then pton(family, s)
               else family == V6 && ValidName(s[i + 1..]) && pton(family, s[..i])
  }

  // ---------- Writing ----------

  function FamilyText(f: Family): string { if f == V4 then "4" else "6" }

  function RouteLine(r: Route): string {
    Join(["route", FamilyText(r.family), r.destination, r.gateway], '\t')
  }

  function RouteLines(routes: seq<Route>): (lines: seq<string>)
    ensures |lines| == |routes|
  {
    seq(|routes|, i requires 0 <= i < |routes| => RouteLine(routes[i]))
  }

  function OwnerLine(r: Record): string { Join(["owner", Numeral(r.uid), Numeral(r.pid)], '\t') }
  function InterfaceLine(name: string): string { Join(["interface", name], '\t') }
  function RenameLine(name: string): string { Join(["rename", name], '\t') }

  function Lines(r: Record): seq<string> {
    HeaderLines(r) + RouteLines(r.routes)
  }

  // Every line is ended by a newline.
  function Unlines(lines: seq<string>): string {
    if lines == [] then "" else lines[0] + ['\n'] + Unlines(lines[1..])
  }

  function HeaderLines(r: Record): seq<string> {
    ["v1", OwnerLine(r), InterfaceLine(r.iface)]
    + if r.rename.Some? then [RenameLine(r.rename.value)] else []
  }

  method SaveHeader(r: Record) returns (body: string)
    ensures body == Unlines(HeaderLines(r))
  {
    body := "v1\n";
    ghost var lines := ["v1"];
    body := body + OwnerLine(r) + "\n";
    lines := UnlinesLine(lines, OwnerLine(r));
    body := body + InterfaceLine(r.iface) + "\n";
    lines := UnlinesLine(lines, InterfaceLine(r.iface));
    if r.rename.Some? {
      body := body + RenameLine(r.rename.value) + "\n";
      lines := UnlinesLine(lines, RenameLine(r.rename.value));
    }
    assert lines == HeaderLines(r);
  }

  method SaveState(r: Record) returns (body: string)
    ensures body == Unlines(Lines(r))
  {
    body := SaveHeader(r);
    ghost var lines := HeaderLines(r);
    for i := 0 to |r.routes|
      invariant body == Unlines(lines) && lines == HeaderLines(r) + RouteLines(r.routes)[..i]
    {
      body := body + RouteLine(r.routes[i]) + "\n";
      lines := UnlinesLine(lines, RouteLine(r.routes[i]));
    }
    assert lines == Lines(r);
  }

  lemma UnlinesLine(lines: seq<string>, line: string) returns (longer: seq<string>)
    ensures longer == lines + [line] && Unlines(longer) == Unlines(lines) + line + "\n"
  {
    longer := lines + [line];
    UnlinesAppend(lines, [line]);
    assert Unlines([line]) == line + "\n" + Unlines([]);
  }

  lemma {:induction false} UnlinesAppend(a: seq<string>, b: seq<string>)
    ensures Unlines(a + b) == Unlines(a) + Unlines(b)
  {
    if a == [] {
      assert a + b == b;
    } else {
      assert (a + b)[1..] == a[1..] + b;
      UnlinesAppend(a[1..], b);
    }
  }

  // ---------- Reading ----------

  // GLib splits the empty string into no parts at all.
  function Fields(line: string, n: nat): seq<string>
    requires n >= 1
  {
    if line == "" then [] else SplitN(line, '\t', n)
  }

  function ParseRoute(pton: AddressTest, line: string): Option<Route> {
    var f := Fields(line, 4);
    if |f| < 4 || f[0] != "route" || (f[1] != "4" && f[1] != "6") then None
    else
      var family := if f[1] == "4" then V4 else V6;
      if ValidAddress(pton, family, f[2]) && ValidAddress(pton, family, f[3])
      then Some(Route(family, f[2], f[3])) else None
  }

  // Route lines up to the first empty line.
  function ParseRoutes(pton: AddressTest, lines: seq<string>): Option<seq<Route>> {
    if lines == [] || lines[0] == "" then Some([])
    else
      var first := ParseRoute(pton, lines[0]);
      var rest := ParseRoutes(pton, lines[1..]);
      if first.None? || rest.None? then None else Some([first.value] + rest.value)
  }

  predicate ValidOwner(uid: nat, pid: nat) {
    0 < uid <= 0xFFFF_FFFF && 1 < pid <= 0x7FFF_FFFF
  }

  function ParseHeader(lines: seq<string>): Option<Record> {
    if |lines| < 3 || lines[0] != "v1" then None
    else
      var owner, iface := Fields(lines[1], 3), Fields(lines[2], 2);
      if |owner| < 3 || |iface| < 2 || owner[0] != "owner" || iface[0] != "interface" then None
      else
        var uid, pid := ParseDigits(owner[1]), ParseDigits(owner[2]);
        if uid.None? || pid.None? || !ValidOwner(uid.value, pid.value) || !ManagedName(iface[1]) then None
        else Some(Record(uid.value, pid.value, iface[1], None, []))
  }

  function Load(pton: AddressTest, text: string): Option<Record> {
    if |text| < 1 || |text| > MAX_FILE then None else LoadLines(pton, Split(text, '\n'))
  }

  function LoadLines(pton: AddressTest, lines: seq<string>): Option<Record> {
    var header := ParseHeader(lines);
    if header.None? then None
    else if |lines| > 3 && "rename\t" <= lines[3] then
      var rename := Fields(lines[3], 2);
      var routes := ParseRoutes(pton, lines[4..]);
      if |rename| < 2 || !CloneName(rename[1]) || routes.None? then None
      else Some(header.value.(rename := Some(rename[1]), routes := routes.value))
    else
      var routes := ParseRoutes(pton, lines[3..]);
      if routes.None? then None else Some(header.value.(routes := routes.value))
  }

  method LoadState(pton: AddressTest, text: string) returns (loaded: Option<Record>)
    ensures loaded == Load(pton, text)
  {
    if |text| < 1 || |text| > MAX_FILE {
      return None;
    }
    var lines := Split(text, '\n');
    var header := ParseHeader(lines);
    if header.None? {
      return None;
    }
    var index, rename := 3, None;
    if |lines| > 3 && "rename\t" <= lines[3] {
      var fields := Fields(lines[3], 2);
      if |fields| < 2 || !CloneName(fields[1]) {
        return None;
      }
      rename, index := Some(fields[1]), 4;
    }
    var routes := LoadRoutes(pton, lines[index..]);
    loaded := if routes.None? then None else Some(header.value.(rename := rename, routes := routes.value));
  }

  lemma RoutesFrom(pton: AddressTest, lines: seq<string>, index: nat)
    requires index < |lines| && lines[index] != ""
    ensures var first, rest := ParseRoute(pton, lines[index]), ParseRoutes(pton, lines[index + 1..]);
            ParseRoutes(pton, lines[index..]) ==
            if first.None? || rest.None? then None else Some([first.value] + rest.value)
  {
    assert lines[index..][1..] == lines[index + 1..];
  }

  method LoadRoutes(pton: AddressTest, lines: seq<string>) returns (loaded: Option<seq<Route>>)
    ensures loaded == ParseRoutes(pton, lines)
  {
    var index, routes := 0, [];
    assert lines[0..] == lines;
    while index < |lines| && lines[index] != ""
      invariant 0 <= index <= |lines|
      invariant ParseRoutes(pton, lines[index..]).None? ==> ParseRoutes(pton, lines).None?
      invariant ParseRoutes(pton, lines[index..]).Some? ==>
                  && ParseRoutes(pton, lines).Some?
                  && ParseRoutes(pton, lines).value == routes + ParseRoutes(pton, lines[index..]).value
    {
      var route := ParseRoute(pton, lines[index]);
      RoutesFrom(pton, lines, index);
      if route.None? {
        return None;
      }
      routes := routes + [route.value];
      index := index + 1;
    }
    assert ParseRoutes(pton, lines[index..]) == Some([]);
    assert ParseRoutes(pton, lines).value == routes;
    loaded := Some(routes);
  }

  // ---------- What was saved is what is loaded ----------

  predicate Clean(s: string) { '\t' !in s && '\n' !in s }

  // No field holds a separator.
  ghost predicate CleanRecord(r: Record) {
    && Clean(r.iface) && (r.rename.Some? ==> Clean(r.rename.value))
    && forall x :: x in r.routes ==> Clean(x.destination) && Clean(x.gateway)
  }

  predicate ValidRoute(pton: AddressTest, r: Route) {
    ValidAddress(pton, r.family, r.destination) && ValidAddress(pton, r.family, r.gateway)
  }

  // The names and routes are ones that loading accepts.
  predicate Presentable(pton: AddressTest, r: Record) {
    && ManagedName(r.iface)
    && (r.rename.Some? ==> CloneName(r.rename.value))
    && (forall x :: x in r.routes ==> ValidRoute(pton, x))
  }

  // So is the owner, which the writer takes as it finds it.
  predicate Acceptable(pton: AddressTest, r: Record) {
    ValidOwner(r.uid, r.pid) && Presentable(pton, r)
  }

  // A later run can load this record: its fields are accepted and its file is not oversized.
  predicate Loadable(pton: AddressTest, r: Record) {
    Acceptable(pton, r) && Small(r)
  }

  // The file is no longer than the reader allows; the writer does not look.
  predicate Small(r: Record) {
    |Unlines(Lines(r))| <= MAX_FILE
  }

  lemma {:induction false} LinesTakeRoom(lines: seq<string>)
    ensures |Unlines(lines)| >= |lines|
  {
    if lines != [] {
      LinesTakeRoom(lines[1..]);
    }
  }

  // A record of many routes is not small.
  lemma ManyRoutesOutgrow(r: Record)
    requires |r.routes| > MAX_FILE
    ensures !Small(r)
  {
    LinesTakeRoom(Lines(r));
    RouteLinesEach(r.routes);
  }

  lemma {:induction false} RouteLinesEach(routes: seq<Route>)
    ensures |RouteLines(routes)| == |routes|
  {
    if routes != [] {
      RouteLinesEach(routes[1..]);
    }
  }

  lemma {:induction false} SplitUnlines(lines: seq<string>)
    requires Free(lines, '\n')
    ensures Split(Unlines(lines), '\n') == lines + [""]
  {
    UnlinesIsJoin(lines);
    SplitJoin(lines + [""], '\n');
  }

  lemma {:induction false} UnlinesIsJoin(lines: seq<string>)
    ensures Unlines(lines) == Join(lines + [""], '\n')
  {
    if lines != [] {
      UnlinesIsJoin(lines[1..]);
      assert (lines + [""])[1..] == lines[1..] + [""];
    }
  }

  lemma {:induction false} JoinIsFree(parts: seq<string>, sep: char, c: char)
    requires Free(parts, c) && sep != c
    ensures c !in Join(parts, sep)
  {
    if |parts| > 1 {
      JoinIsFree(parts[1..], sep, c);
    }
  }

  lemma FieldsOfJoin(parts: seq<string>, n: nat)
    requires 2 <= |parts| <= n && Free(parts, '\t')
    ensures Fields(Join(parts, '\t'), n) == parts
  {
    SplitNJoin(parts, '\t', n);
  }

  lemma RouteRoundTrip(pton: AddressTest, r: Route)
    requires Clean(r.destination) && Clean(r.gateway)
    ensures ParseRoute(pton, RouteLine(r)) == if ValidRoute(pton, r) then Some(r) else None
    ensures '\n' !in RouteLine(r) && RouteLine(r) != "" && !("rename\t" <= RouteLine(r))
  {
    var parts := ["route", FamilyText(r.family), r.destination, r.gateway];
    FieldsOfJoin(parts, 4);
    JoinIsFree(parts, '\t', '\n');
    assert RouteLine(r) == "route" + ['\t'] + Join(parts[1..], '\t');
    assert RouteLine(r)[1] == 'o';
  }

  lemma {:induction false} RoutesRoundTrip(pton: AddressTest, routes: seq<Route>, tail: seq<string>)
    requires tail == [""]
    requires forall x :: x in routes ==> Clean(x.destination) && Clean(x.gateway)
    ensures ParseRoutes(pton, RouteLines(routes) + tail) ==
            if forall x :: x in routes ==> ValidRoute(pton, x) then Some(routes) else None
  {
    if routes != [] {
      RouteRoundTrip(pton, routes[0]);
      RoutesRoundTrip(pton, routes[1..], tail);
      assert (RouteLines(routes) + tail)[1..] == RouteLines(routes[1..]) + tail;
      assert routes == [routes[0]] + routes[1..];
    }
  }

  lemma HeaderRoundTrip(r: Record, rest: seq<string>)
    requires Clean(r.iface)
    ensures var lines := ["v1", OwnerLine(r), InterfaceLine(r.iface)] + rest;
            ParseHeader(lines) == if ValidOwner(r.uid, r.pid) && ManagedName(r.iface)
                                  then Some(Record(r.uid, r.pid, r.iface, None, [])) else None
    ensures '\n' !in OwnerLine(r) && '\n' !in InterfaceLine(r.iface)
  {
    var owner, iface := ["owner", Numeral(r.uid), Numeral(r.pid)], ["interface", r.iface];
    FieldsOfJoin(owner, 3);
    FieldsOfJoin(iface, 2);
    NumeralRoundTrip(r.uid);
    NumeralRoundTrip(r.pid);
    JoinIsFree(owner, '\t', '\n');
    JoinIsFree(iface, '\t', '\n');
  }

  lemma RenameRoundTrip(name: string)
    requires Clean(name)
    ensures Fields(RenameLine(name), 2) == ["rename", name]
    ensures "rename\t" <= RenameLine(name) && '\n' !in RenameLine(name)
  {
    FieldsOfJoin(["rename", name], 2);
    JoinIsFree(["rename", name], '\t', '\n');
  }

  lemma LinesAreFree(pton: AddressTest, r: Record)
    requires CleanRecord(r)
    ensures Free(Lines(r), '\n')
  {
    HeaderRoundTrip(r, []);
    if r.rename.Some? {
      RenameRoundTrip(r.rename.value);
    }
    forall x | x in r.routes ensures '\n' !in RouteLine(x) {
      RouteRoundTrip(pton, x);
    }
    forall i | 0 <= i < |r.routes| ensures '\n' !in RouteLines(r.routes)[i] {
      assert r.routes[i] in r.routes;
    }
  }

  lemma LoadRenamed(pton: AddressTest, r: Record)
    requires CleanRecord(r) && r.rename.Some?
    ensures LoadLines(pton, Lines(r) + [""]) == if Acceptable(pton, r) then Some(r) else None
  {
    RenameRoundTrip(r.rename.value);
    RoutesRoundTrip(pton, r.routes, [""]);
    var rest := [RenameLine(r.rename.value)] + RouteLines(r.routes) + [""];
    assert Lines(r) + [""] == ["v1", OwnerLine(r), InterfaceLine(r.iface)] + rest;
    HeaderRoundTrip(r, rest);
    assert (Lines(r) + [""])[4..] == RouteLines(r.routes) + [""];
  }

  lemma LoadUnrenamed(pton: AddressTest, r: Record)
    requires CleanRecord(r) && r.rename.None?
    ensures LoadLines(pton, Lines(r) + [""]) == if Acceptable(pton, r) then Some(r) else None
  {
    RoutesRoundTrip(pton, r.routes, [""]);
    var rest := RouteLines(r.routes) + [""];
    var lines := Lines(r) + [""];
    assert lines == ["v1", OwnerLine(r), InterfaceLine(r.iface)] + rest;
    HeaderRoundTrip(r, rest);
    assert lines[3..] == rest;
    if r.routes != [] {
      RouteRoundTrip(pton, r.routes[0]);
    }
    assert !("rename\t" <= lines[3]);
  }

  // Loading a saved record gives it back exactly when it is loadable, and
  // otherwise refuses it.
  lemma LoadOfSave(pton: AddressTest, r: Record)
    requires CleanRecord(r)
    ensures Load(pton, Unlines(Lines(r))) == if Loadable(pton, r) then Some(r) else None
  {
    LinesAreFree(pton, r);
    SplitUnlines(Lines(r));
    if r.rename.Some? {
      LoadRenamed(pton, r);
    } else {
      LoadUnrenamed(pton, r);
    }
  }

  predicate AddressChar(c: char) {
    Alphanumeric(c) || c == '.' || c == ':'
  }

  // No accepted address text holds anything but letters, digits, dots and colons.
  ghost predicate PlainAddresses(pton: AddressTest) {
    forall f, s, c :: pton(f, s) && c in s ==> AddressChar(c)
  }

  // Nothing that is valid can hold a separator.
  lemma PresentableIsClean(pton: AddressTest, r: Record)
    requires PlainAddresses(pton) && Presentable(pton, r)
    ensures CleanRecord(r)
  {
    forall x | x in r.routes ensures Clean(x.destination) && Clean(x.gateway) {
      AddressIsClean(pton, x.family, x.destination);
      AddressIsClean(pton, x.family, x.gateway);
    }
  }

  lemma LoadableIsClean(pton: AddressTest, r: Record)
    requires PlainAddresses(pton) && Loadable(pton, r)
    ensures CleanRecord(r) && Load(pton, Unlines(Lines(r))) == Some(r)
  {
    PresentableIsClean(pton, r);
    LoadOfSave(pton, r);
  }

  lemma AddressIsClean(pton: AddressTest, f: Family, s: string)
    requires PlainAddresses(pton)
    requires ValidAddress(pton, f, s)
    ensures Clean(s)
  {
    var i := IndexOf(s, '%');
    if i < |s| {
      assert s == s[..i] + ['%'] + s[i + 1..];
    }
  }
}
