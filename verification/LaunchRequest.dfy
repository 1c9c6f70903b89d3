// The nested launch request: its command-line form, its length-prefixed wire
// form, and the proof that a request survives the trip to the daemon.
module LaunchRequest {
  import opened Collections
  import opened Text

  const MAX_MAPPED_FDS: nat := 32
  const MAX_TARGET_FD: nat := 65_535
  const MAX_ARGUMENTS: nat := 1024
  const MAX_ENVIRONMENT: nat := 512
  const MAX_PACKET: nat := 65_536
  const MAGIC: nat := 0x4653_4C4A
  const U32_MAX: nat := 0xFFFF_FFFF
  const U64_MAX: nat := 0xFFFF_FFFF_FFFF_FFFF

  datatype JailMode = Direct | Sandbox | NoNetwork
  datatype Request = Request(root: string, runtimeRoot: string, device: nat, inode: nat, uid: nat, gid: nat,
                             groups: seq<nat>, cwd: Option<string>, mode: JailMode, fds: seq<nat>,
                             environment: seq<string>, argv: seq<string>)

  // ---------- Fields ----------

  // Rust's unsigned parse: an optional plus sign, then digits, within range.
  function ParseUnsigned(s: string, max: nat): Option<nat> {
    var n := ParseDigits(if s != "" && s[0] == '+' then s[1..] else s);
    if n.Some? && n.value <= max then n else None
  }

  // A signed parse kept only when it lands in 0..=65535; minus zero is zero.
  function ParseTarget(s: string): Option<nat> {
    if s != "" && s[0] == '-' then
      if ParseDigits(s[1..]) == Some(0) then Some(0) else None
    else ParseUnsigned(s, MAX_TARGET_FD)
  }

  function ParseEach(parts: seq<string>, parse: string -> Option<nat>): Option<seq<nat>> {
    if parts == [] then Some([])
    else
      var first, rest := parse(parts[0]), ParseEach(parts[1..], parse);
      if first.None? || rest.None? then None else Some([first.value] + rest.value)
  }

  // Comma-separated distinct numbers; the empty text is the empty list.
  function ParseList(s: string, parse: string -> Option<nat>): Option<seq<nat>> {
    if s == "" then Some([])
    else
      var items := ParseEach(Split(s, ','), parse);
      if items.Some? && NoRepeats(items.value) then items else None
  }

  function U32(): string -> Option<nat> { (s: string) => ParseUnsigned(s, U32_MAX) }
  function Target(): string -> Option<nat> { (s: string) => ParseTarget(s) }

  function ParseFds(s: string): Option<seq<nat>> {
    var items := ParseList(s, Target());
    if items.Some? && |items.value| <= MAX_MAPPED_FDS then items else None
  }

  function ParseMode(s: string): Option<JailMode> {
    if s == "direct" then Some(Direct)
    else if s == "sandbox" then Some(Sandbox)
    else if s == "no-network" then Some(NoNetwork)
    else None
  }

  function ModeText(m: JailMode): string {
    match m case Direct => "direct" case Sandbox => "sandbox" case NoNetwork => "no-network"
  }

  // NAME=value with a nonempty name.
  predicate ValidEntry(s: string) { s != "" && s[0] != '=' && '=' in s }

  function NumberList(items: seq<nat>): seq<string> {
    seq(|items|, i requires 0 <= i < |items| => Numeral(items[i]))
  }

  // ---------- The argument vector ----------

  datatype Ids = Ids(device: nat, inode: nat, uid: nat, gid: nat)
  datatype Shape = Shape(groups: seq<nat>, mode: JailMode, fds: seq<nat>, count: nat)

  function ParseIds(device: string, inode: string, uid: string, gid: string): Option<Ids> {
    var d, i := ParseUnsigned(device, U64_MAX), ParseUnsigned(inode, U64_MAX);
    var u, g := ParseUnsigned(uid, U32_MAX), ParseUnsigned(gid, U32_MAX);
    if d.None? || i.None? || u.None? || g.None? then None else Some(Ids(d.value, i.value, u.value, g.value))
  }

  function ParseShape(groups: string, mode: string, fds: string, count: string): Option<Shape> {
    var g, m, f := ParseList(groups, U32()), ParseMode(mode), ParseFds(fds);
    var c := ParseUnsigned(count, U64_MAX);
    if g.None? || m.None? || f.None? || c.None? || c.value > MAX_ENVIRONMENT then None
    else Some(Shape(g.value, m.value, f.value, c.value))
  }

  function Assemble(root: string, runtimeRoot: string, ids: Ids, cwd: string, shape: Shape,
                    environment: seq<string>, argv: seq<string>): Request {
    Request(root, runtimeRoot, ids.device, ids.inode, ids.uid, ids.gid, shape.groups,
            if cwd == "-" then None else Some(cwd), shape.mode, shape.fds, environment, argv)
  }

  // Position 0 is the program name.
  function Parse(args: seq<string>): Option<Request> {
    if |args| < 12 then None
    else
      var ids := ParseIds(args[3], args[4], args[5], args[6]);
      var shape := ParseShape(args[7], args[9], args[10], args[11]);
      if ids.None? || shape.None? then None
      else
        var tail := ParseTail(args[12..], shape.value.count);
        if tail.None? then None
        else Some(Assemble(args[1], args[2], ids.value, args[8], shape.value, tail.value.0, tail.value.1))
  }

  // The environment entries, the separator and the program arguments.
  function ParseTail(rest: seq<string>, count: nat): Option<(seq<string>, seq<string>)> {
    if |rest| <= count || (exists e :: e in rest[..count] && !ValidEntry(e)) || rest[count] != "--" then None
    else
      var argv := rest[count + 1..];
      if 1 <= |argv| <= MAX_ARGUMENTS then Some((rest[..count], argv)) else None
  }

  method ParseArguments(args: seq<string>) returns (request: Option<Request>)
    ensures request == Parse(args)
  {
    if |args| < 12 {
      return None;
    }
    var ids := ParseIds(args[3], args[4], args[5], args[6]);
    var shape := ParseShape(args[7], args[9], args[10], args[11]);
    if ids.None? || shape.None? {
      return None;
    }
    var count := shape.value.count;
    ghost var rest := args[12..];
    var position, environment := 12, [];
    for i := 0 to count
      invariant position == 12 + i <= |args| && environment == rest[..i]
      invariant forall e :: e in environment ==> ValidEntry(e)
    {
      if position >= |args| {
        assert ParseTail(rest, count).None?;
        return None;
      }
      if !ValidEntry(args[position]) {
        assert |rest| > count ==> rest[..count][i] == args[position];
        assert ParseTail(rest, count).None?;
        return None;
      }
      environment := environment + [args[position]];
      position := position + 1;
    }
    if position >= |args| || args[position] != "--" {
      return None;
    }
    var argv := args[position + 1..];
    assert argv == rest[count + 1..];
    if !(1 <= |argv| <= MAX_ARGUMENTS) {
      return None;
    }
    request := Some(Assemble(args[1], args[2], ids.value, args[8], shape.value, environment, argv));
  }

  function Head(r: Request): (head: seq<string>)
    ensures |head| == 12
  {
    ["secure-launch", r.root, r.runtimeRoot, Numeral(r.device), Numeral(r.inode), Numeral(r.uid), Numeral(r.gid),
     Join(NumberList(r.groups), ','), if r.cwd.Some? then r.cwd.value else "-", ModeText(r.mode),
     Join(NumberList(r.fds), ','), Numeral(|r.environment|)]
  }

  function WireArguments(r: Request): seq<string> {
    Head(r) + r.environment + ["--"] + r.argv
  }

  // ---------- Printing and parsing again ----------

  lemma NumeralIsUnsigned(n: nat, max: nat)
    requires n <= max
    ensures ParseUnsigned(Numeral(n), max) == Some(n)
  {
    NumeralRoundTrip(n);
    assert Numeral(n)[0] in Numeral(n);
  }

  lemma {:induction false} EachNumeral(items: seq<nat>, parse: string -> Option<nat>)
    requires forall n :: n in items ==> parse(Numeral(n)) == Some(n)
    ensures ParseEach(NumberList(items), parse) == Some(items)
  {
    if items != [] {
      assert NumberList(items)[1..] == NumberList(items[1..]);
      EachNumeral(items[1..], parse);
      assert items == [items[0]] + items[1..];
    }
  }

  lemma ListRoundTrip(items: seq<nat>, parse: string -> Option<nat>)
    requires NoRepeats(items) && forall n :: n in items ==> parse(Numeral(n)) == Some(n)
    ensures ParseList(Join(NumberList(items), ','), parse) == Some(items)
  {
    if items != [] {
      var parts := NumberList(items);
      assert Free(parts, ',');
      SplitJoin(parts, ',');
      EachNumeral(items, parse);
      assert Join(parts, ',') != "" by {
        assert parts[0] != "";
      }
    }
  }

  // What every accepted request satisfies.
  ghost predicate Accepted(r: Request) {
    && r.device <= U64_MAX && r.inode <= U64_MAX && r.uid <= U32_MAX && r.gid <= U32_MAX
    && NoRepeats(r.groups) && (forall g :: g in r.groups ==> g <= U32_MAX)
    && r.cwd != Some("-")
    && |r.fds| <= MAX_MAPPED_FDS && NoRepeats(r.fds) && (forall f :: f in r.fds ==> f <= MAX_TARGET_FD)
    && |r.environment| <= MAX_ENVIRONMENT && (forall e :: e in r.environment ==> ValidEntry(e))
    && 1 <= |r.argv| <= MAX_ARGUMENTS
  }

  lemma {:induction false} EachInRange(parts: seq<string>, parse: string -> Option<nat>, max: nat)
    requires forall s :: parse(s).Some? ==> parse(s).value <= max
    requires ParseEach(parts, parse).Some?
    ensures forall n :: n in ParseEach(parts, parse).value ==> n <= max
  {
    if parts != [] {
      EachInRange(parts[1..], parse, max);
    }
  }

  lemma ParsedIsAccepted(args: seq<string>)
    requires Parse(args).Some?
    ensures Accepted(Parse(args).value)
  {
    if args[7] != "" {
      EachInRange(Split(args[7], ','), U32(), U32_MAX);
    }
    if args[10] != "" {
      EachInRange(Split(args[10], ','), Target(), MAX_TARGET_FD);
    }
  }

  lemma TailRoundTrip(environment: seq<string>, argv: seq<string>)
    requires (forall e :: e in environment ==> ValidEntry(e)) && 1 <= |argv| <= MAX_ARGUMENTS
    ensures ParseTail(environment + ["--"] + argv, |environment|) == Some((environment, argv))
  {
    var rest := environment + ["--"] + argv;
    assert rest[..|environment|] == environment && rest[|environment| + 1..] == argv;
  }

  lemma GroupsRoundTrip(groups: seq<nat>)
    requires NoRepeats(groups) && forall g :: g in groups ==> g <= U32_MAX
    ensures ParseList(Join(NumberList(groups), ','), U32()) == Some(groups)
  {
    forall g | g in groups ensures U32()(Numeral(g)) == Some(g) {
      NumeralIsUnsigned(g, U32_MAX);
    }
    ListRoundTrip(groups, U32());
  }

  lemma FdsRoundTrip(fds: seq<nat>)
    requires |fds| <= MAX_MAPPED_FDS && NoRepeats(fds) && forall f :: f in fds ==> f <= MAX_TARGET_FD
    ensures ParseFds(Join(NumberList(fds), ',')) == Some(fds)
  {
    forall f | f in fds ensures Target()(Numeral(f)) == Some(f) {
      NumeralIsUnsigned(f, MAX_TARGET_FD);
      assert Numeral(f)[0] in Numeral(f);
    }
    ListRoundTrip(fds, Target());
  }

  lemma IdsRoundTrip(r: Request)
    requires Accepted(r)
    ensures ParseIds(Numeral(r.device), Numeral(r.inode), Numeral(r.uid), Numeral(r.gid))
            == Some(Ids(r.device, r.inode, r.uid, r.gid))
  {
    NumeralIsUnsigned(r.device, U64_MAX);
    NumeralIsUnsigned(r.inode, U64_MAX);
    NumeralIsUnsigned(r.uid, U32_MAX);
    NumeralIsUnsigned(r.gid, U32_MAX);
  }

  lemma ShapeRoundTrip(r: Request)
    requires Accepted(r)
    ensures ParseShape(Join(NumberList(r.groups), ','), ModeText(r.mode), Join(NumberList(r.fds), ','),
                       Numeral(|r.environment|))
            == Some(Shape(r.groups, r.mode, r.fds, |r.environment|))
  {
    GroupsRoundTrip(r.groups);
    FdsRoundTrip(r.fds);
    NumeralIsUnsigned(|r.environment|, U64_MAX);
  }

  lemma AcceptedRoundTrip(r: Request)
    requires Accepted(r)
    ensures Parse(WireArguments(r)) == Some(r)
  {
    var args, tail := WireArguments(r), r.environment + ["--"] + r.argv;
    assert args == Head(r) + tail;
    assert args[12..] == tail;
    IdsRoundTrip(r);
    ShapeRoundTrip(r);
    TailRoundTrip(r.environment, r.argv);
  }

  // ---------- The packet ----------

  function BigEndian(n: nat): (s: string)
    requires n <= U32_MAX
    ensures |s| == 4
  {
    [(n / 0x100_0000) as char, (n / 0x1_0000 % 256) as char, (n / 256 % 256) as char, (n % 256) as char]
  }

  function FromBigEndian(s: string): nat
    requires |s| == 4
  {
    s[0] as nat * 0x100_0000 + s[1] as nat * 0x1_0000 + s[2] as nat * 256 + s[3] as nat
  }

  lemma BigEndianRoundTrip(n: nat)
    requires n <= U32_MAX
    ensures FromBigEndian(BigEndian(n)) == n
  {
    var a := n / 256;
    var b := a / 256;
    assert n / 0x1_0000 == b && n / 0x100_0000 == b / 256;
  }

  predicate Sendable(arg: string) { '\0' !in arg && |arg| <= U32_MAX }

  predicate AllSendable(args: seq<string>) { forall i :: 0 <= i < |args| ==> Sendable(args[i]) }

  function Frames(args: seq<string>): string
    requires AllSendable(args)
  {
    if args == [] then "" else BigEndian(|args[0]|) + args[0] + Frames(args[1..])
  }

  function Payload(args: seq<string>): Option<string>
    requires |args| <= U32_MAX
  {
    if !AllSendable(args) then None
    else
      var payload := BigEndian(MAGIC) + BigEndian(|args|) + Frames(args);
      if |payload| > MAX_PACKET then None else Some(payload)
  }

  method BuildPayload(args: seq<string>) returns (r: Option<string>)
    requires |args| <= U32_MAX
    ensures r == Payload(args)
  {
    var payload := BigEndian(MAGIC) + BigEndian(|args|);
    for i := 0 to |args|
      invariant forall j :: 0 <= j < i ==> Sendable(args[j])
      invariant payload == BigEndian(MAGIC) + BigEndian(|args|) + Frames(args[..i])
    {
      if !Sendable(args[i]) {
        return None;
      }
      payload := payload + BigEndian(|args[i]|) + args[i];
      FramesAppend(args[..i], args[i]);
      assert args[..i + 1] == args[..i] + [args[i]];
    }
    assert args[..|args|] == args;
    if |payload| > MAX_PACKET {
      return None;
    }
    r := Some(payload);
  }

  lemma {:induction false} FramesAppend(args: seq<string>, last: string)
    requires AllSendable(args) && Sendable(last)
    ensures Frames(args + [last]) == Frames(args) + BigEndian(|last|) + last
  {
    if args == [] {
      assert args + [last] == [last];
      assert Frames([last]) == BigEndian(|last|) + last + Frames([last][1..]);
    } else {
      assert (args + [last])[1..] == args[1..] + [last];
      FramesAppend(args[1..], last);
    }
  }

  // The arguments that remain to be read from position offset; nothing may trail them.
  function Unframe(payload: string, offset: nat, count: nat): Option<seq<string>>
    requires offset <= |payload|
    decreases count
  {
    if count == 0 then (if offset == |payload| then Some([]) else None)
    else if offset + 4 > |payload| then None
    else
      var start := offset + 4;
      var end := start + FromBigEndian(payload[offset..start]);
      if end > |payload| || '\0' in payload[start..end] then None
      else
        var rest := Unframe(payload, end, count - 1);
        if rest.None? then None else Some([payload[start..end]] + rest.value)
  }

  predicate CountAllowed(count: nat) { 0 < count <= MAX_ARGUMENTS + MAX_ENVIRONMENT + 16 }

  function Decode(payload: string): Option<seq<string>> {
    if |payload| < 8 || FromBigEndian(payload[..4]) != MAGIC then None
    else
      var count := FromBigEndian(payload[4..8]);
      if CountAllowed(count) then Unframe(payload, 8, count) else None
  }

  method DecodePayload(payload: string) returns (r: Option<seq<string>>)
    ensures r == Decode(payload)
  {
    if |payload| < 8 || FromBigEndian(payload[..4]) != MAGIC {
      return None;
    }
    var count := FromBigEndian(payload[4..8]);
    if !CountAllowed(count) {
      return None;
    }
    r := ReadFrames(payload, 8, count);
  }

  // A loop over the frames, each starting where the previous one ended.
  method ReadFrames(payload: string, first: nat, count: nat) returns (r: Option<seq<string>>)
    requires first <= |payload|
    ensures r == Unframe(payload, first, count)
  {
    var offset, args := first, [];
    for i := 0 to count
      invariant 0 <= offset <= |payload|
      invariant Unframe(payload, offset, count - i).None? ==> Unframe(payload, first, count).None?
      invariant Unframe(payload, offset, count - i).Some? ==>
                  && Unframe(payload, first, count).Some?
                  && Unframe(payload, first, count).value == args + Unframe(payload, offset, count - i).value
    {
      if offset + 4 > |payload| {
        return None;
      }
      var start := offset + 4;
      var end := start + FromBigEndian(payload[offset..start]);
      if end > |payload| || '\0' in payload[start..end] {
        return None;
      }
      args := args + [payload[start..end]];
      offset := end;
    }
    assert Unframe(payload, offset, 0) == if offset == |payload| then Some([]) else None;
    if offset != |payload| {
      return None;
    }
    assert Unframe(payload, first, count).value == args;
    r := Some(args);
  }

  // Reading one frame takes its argument and leaves the rest.
  lemma UnframeOne(prefix: string, arg: string, rest: string, count: nat)
    requires Sendable(arg)
    ensures var longer := prefix + BigEndian(|arg|) + arg;
            Unframe(longer + rest, |prefix|, count + 1) ==
            var tail := Unframe(longer + rest, |longer|, count);
            if tail.None? then None else Some([arg] + tail.value)
  {
    var longer := prefix + BigEndian(|arg|) + arg;
    var payload, start := longer + rest, |prefix| + 4;
    BigEndianRoundTrip(|arg|);
    assert payload[|prefix|..start] == BigEndian(|arg|);
    assert payload[start..|longer|] == arg;
  }

  lemma {:induction false} UnframeFrames(prefix: string, args: seq<string>)
    requires AllSendable(args)
    ensures Unframe(prefix + Frames(args), |prefix|, |args|) == Some(args)
    decreases |args|
  {
    if args == [] {
      assert prefix + Frames(args) == prefix;
    } else {
      var longer, rest := prefix + BigEndian(|args[0]|) + args[0], Frames(args[1..]);
      assert prefix + Frames(args) == longer + rest;
      UnframeOne(prefix, args[0], rest, |args| - 1);
      UnframeFrames(longer, args[1..]);
      assert args == [args[0]] + args[1..];
    }
  }

  // Whatever can be sent is received as it was, provided its count is allowed.
  lemma PayloadRoundTrip(args: seq<string>)
    requires CountAllowed(|args|) && Payload(args).Some?
    ensures Decode(Payload(args).value) == Some(args)
  {
    var prefix := BigEndian(MAGIC) + BigEndian(|args|);
    BigEndianRoundTrip(MAGIC);
    BigEndianRoundTrip(|args|);
    var payload := prefix + Frames(args);
    assert payload[..4] == BigEndian(MAGIC) && payload[4..8] == BigEndian(|args|);
    UnframeFrames(prefix, args);
  }

  // A request the client accepted reaches the daemon unchanged whenever its
  // packet fits, and the daemon's argument bound never refuses it.
  lemma RequestReachesDaemon(args: seq<string>)
    requires Parse(args).Some?
    ensures var wire := WireArguments(Parse(args).value);
            && CountAllowed(|wire|)
            && (Payload(wire).Some? ==>
                  && Decode(Payload(wire).value) == Some(wire)
                  && Parse(wire) == Parse(args))
  {
    var r := Parse(args).value;
    ParsedIsAccepted(args);
    AcceptedRoundTrip(r);
    if Payload(WireArguments(r)).Some? {
      PayloadRoundTrip(WireArguments(r));
    }
  }
}
