// The supervision protocol of a nested launch: the daemon's worker and the
// child it forks, joined by a socket pair, with either failing at any step.
// The kernel removes a jail when the last reference to its owning descriptor
// closes, and with it every process attached to the jail.
module NestedLaunch {
  import opened Descriptors

  // What the child has just completed.
  datatype Child = Forked | Anchored | MadeJail | Attached | SentOwner | Approved | Placed | Dropped | Ready
                 | Running | Exited

  // What the supervisor is about to do.
  datatype Supervisor = Isolate | ReceiveOwner | ClearPersistence | SendApproval | ReadReadiness | TellStarted
                      | Wait | DropOwner | TellStatus | Kill | Reap | Returned | Dead

  datatype Jail = Absent | Alive | Removed

  // When each event happened, counted in steps from 1; 0 means that it has not.
  datatype Times = Times(received: nat, cleared: nat, approved: nat, dropped: nat, readied: nat, executed: nat,
                         told: nat, waiting: nat, killed: nat, reaped: nat)

  // What the descriptor mapping leaves of the child's end of the socket pair:
  // whether the file at the lifecycle number takes a byte at all, whether that
  // byte still goes to the supervisor, and whether the end is still open after
  // the mapping and in the payload.
  datatype Channel = Channel(takes: bool, delivers: bool, mapped: bool, executed: bool)

  predicate Wired(c: Channel) {
    (c.delivers ==> c.takes && c.mapped) && (c.executed ==> c.mapped)
  }

  // The socket pair carries at most the owner message and the readiness byte
  // one way and the approval byte the other way.
  datatype State = State(clock: nat, child: Child, sup: Supervisor, jail: Jail, childOwns: bool, supOwns: bool,
                         ownerSent: bool, readySent: bool, approval: bool, at: Times, channel: Channel)

  function Initial(c: Channel): State {
    State(1, Forked, Isolate, Absent, false, false, false, false, false, Times(0, 0, 0, 0, 0, 0, 0, 0, 0, 0), c)
  }

  function Stage(c: Child): nat {
    match c
    case Forked => 0 case Anchored => 1 case MadeJail => 2 case Attached => 3 case SentOwner => 4
    case Approved => 5 case Placed => 6 case Dropped => 7 case Ready => 8 case Running => 9 case Exited => 10
  }

  // ---------- The kernel ----------

  predicate Referenced(s: State) { s.childOwns || s.supOwns || s.ownerSent }

  // Attached to the jail, so that removing the jail kills it.
  predicate Inside(c: Child) { 3 <= Stage(c) <= 9 }

  // The supervisor reads end of file once the child's end is closed everywhere.
  predicate EndOpen(s: State) {
    var n := Stage(s.child);
    n <= 5 || (n <= 8 && s.channel.mapped) || (n == 9 && s.channel.executed)
  }

  // The last reference to the owning descriptor has gone.
  function Settle(s: State): (next: State)
    ensures next.channel == s.channel
  {
    if s.jail == Alive && !Referenced(s) then
      s.(jail := Removed, child := if Inside(s.child) then Exited else s.child)
    else s
  }

  function ChildGone(s: State): (next: State)
    ensures next.channel == s.channel
  {
    Settle(s.(child := Exited, childOwns := false))
  }

  function RemoveJail(s: State): (next: State)
    ensures next.channel == s.channel
  {
    s.(jail := if s.jail == Alive then Removed else s.jail, child := if Inside(s.child) then Exited else s.child,
       childOwns := s.childOwns && !Inside(s.child))
  }

  // The supervisor's end of the socket is closed: sending fails and reading ends.
  predicate Absconded(v: Supervisor) { v == Returned || v == Dead }

  // ---------- The child: one step that succeeds or fails ----------

  function ChildStep(s: State, ok: bool): (next: State)
    ensures next.channel == s.channel
  {
    match s.child
    case Forked => if ok then s.(child := Anchored) else ChildGone(s)
    case Anchored => if ok then s.(child := MadeJail, jail := Alive, childOwns := true) else ChildGone(s)
    case MadeJail => if ok then s.(child := Child.Attached) else ChildGone(RemoveJail(s))
    case Attached => if ok && !Absconded(s.sup) then s.(child := SentOwner, ownerSent := true) else ChildGone(s)
    case SentOwner =>
      if s.approval && ok then Settle(s.(child := Approved, approval := false, childOwns := false))
      else if Absconded(s.sup) || !ok then ChildGone(s)
      else s
    case Approved => if ok then s.(child := Placed) else ChildGone(s)
    case Placed => if ok then s.(child := Dropped, at := s.at.(dropped := s.clock)) else ChildGone(s)
    case Dropped =>
      if ok && s.channel.takes then
        s.(child := Ready, readySent := s.channel.delivers, at := s.at.(readied := s.clock))
      else ChildGone(s)
    case Ready => if ok then s.(child := Running, at := s.at.(executed := s.clock)) else ChildGone(s)
    case Running => ChildGone(s)
    case Exited => s
  }

  // ---------- The supervisor ----------

  // An error before waiting begins: the owner is dropped on the way out, then the child is killed.
  function GiveUp(s: State): (next: State)
    ensures next.channel == s.channel
  {
    Settle(s.(sup := Kill, supOwns := false))
  }

  // Returning closes the supervisor's end of the socket and whatever is still in it.
  function Return(s: State): (next: State)
    ensures next.channel == s.channel
  {
    Settle(s.(sup := Returned, supOwns := false, ownerSent := false, readySent := false, approval := false))
  }

  function SupervisorStep(s: State, ok: bool): (next: State)
    ensures next.channel == s.channel
  {
    match s.sup
    case Isolate => if ok then s.(sup := ReceiveOwner) else GiveUp(s)
    case ReceiveOwner =>
      if !ok then GiveUp(s)
      else if s.ownerSent then
        s.(sup := ClearPersistence, supOwns := true, ownerSent := false, at := s.at.(received := s.clock))
      else if !EndOpen(s) then GiveUp(s)
      else s
    case ClearPersistence =>
      if ok then s.(sup := SendApproval, at := s.at.(cleared := s.clock)) else GiveUp(RemoveJail(s))
    case SendApproval =>
      if ok then s.(sup := ReadReadiness, approval := true, at := s.at.(approved := s.clock)) else GiveUp(RemoveJail(s))
    case ReadReadiness =>
      if !ok then GiveUp(s)
      else if s.readySent then s.(sup := TellStarted, readySent := false)
      else if !EndOpen(s) then GiveUp(s)
      else s
    case TellStarted => if ok then s.(sup := Wait, at := s.at.(told := s.clock, waiting := s.clock)) else GiveUp(s)
    case Wait =>
      if !ok then Return(s)
      else if s.child == Exited then s.(sup := DropOwner, at := s.at.(reaped := s.clock))
      else s
    case DropOwner => Settle(s.(sup := TellStatus, supOwns := false))
    case TellStatus => Return(s)
    case Kill => ChildGone(s.(sup := Reap, at := s.at.(killed := s.clock)))
    case Reap => Return(s.(at := s.at.(reaped := s.clock)))
    case Returned => s
    case Dead => s
  }

  // Death closes all that the supervisor held; an approval already sent can still be read.
  function SupervisorGone(s: State): (next: State)
    ensures next.channel == s.channel
  {
    if s.sup == Returned then s
    else Settle(s.(sup := Dead, supOwns := false, ownerSent := false, readySent := false))
  }

  datatype Action = ChildActs(ok: bool) | SupervisorActs(ok: bool) | ChildDies | SupervisorDies

  function Step(s: State, a: Action): (next: State)
    ensures next.channel == s.channel
  {
    Tick(match a
         case ChildActs(ok) => ChildStep(s, ok)
         case SupervisorActs(ok) => SupervisorStep(s, ok)
         case ChildDies => ChildGone(s)
         case SupervisorDies => SupervisorGone(s))
  }

  function Tick(s: State): (next: State)
    ensures next.channel == s.channel
  {
    s.(clock := s.clock + 1)
  }

  // The state after an arbitrary interleaving.
  function Run(c: Channel, actions: seq<Action>): State {
    if actions == [] then Initial(c) else Step(Run(c, actions[..|actions| - 1]), actions[|actions| - 1])
  }

  // ---------- What every interleaving keeps ----------

  // Each event lies in the past and after the one that must precede it.
  predicate Follows(later: nat, earlier: nat, clock: nat) {
    later > 0 ==> 0 < earlier < later < clock
  }

  predicate Ordered(s: State) {
    var t := s.at;
    && t.received < s.clock && t.killed < s.clock && t.reaped < s.clock
    && Follows(t.cleared, t.received, s.clock) && Follows(t.approved, t.cleared, s.clock)
    && Follows(t.dropped, t.approved, s.clock) && Follows(t.readied, t.dropped, s.clock)
    && Follows(t.executed, t.readied, s.clock) && Follows(t.told, t.readied, s.clock)
    && t.waiting == t.told
  }

  // Which events have happened agrees with where the child is.
  predicate ChildTracked(s: State) {
    var n, t := Stage(s.child), s.at;
    && (5 <= n <= 9 ==> t.approved > 0) && (7 <= n <= 9 ==> t.dropped > 0) && (8 <= n <= 9 ==> t.readied > 0)
    && (n == 9 ==> t.executed > 0) && (n <= 8 ==> t.executed == 0) && (n <= 7 ==> t.readied == 0)
    && (t.readied > 0 ==> s.channel.takes)
    && (n <= 6 ==> t.dropped == 0) && (n <= 3 ==> t.received == 0 && !s.ownerSent)
    && (s.childOwns <==> 2 <= n <= 4) && (2 <= n <= 9 ==> s.jail == Alive)
  }

  // And with where the supervisor is.
  predicate SupervisorTracked(s: State) {
    var t := s.at;
    && (s.approval ==> t.approved > 0) && (s.readySent ==> t.readied > 0 && s.channel.delivers)
    && (t.told > 0 ==> s.channel.delivers) && (s.supOwns ==> t.received > 0)
    && (s.ownerSent ==> t.received == 0)
    && match s.sup
       case Isolate => t.received == 0 && t.waiting == 0
       case ReceiveOwner => t.received == 0 && t.waiting == 0
       case ClearPersistence => t.received > 0 && t.cleared == 0 && t.waiting == 0
       case SendApproval => t.cleared > 0 && t.approved == 0 && t.waiting == 0
       case ReadReadiness => t.cleared > 0 && t.waiting == 0
       case TellStarted => t.readied > 0 && t.waiting == 0 && s.channel.delivers
       case Wait => t.waiting > 0
       case DropOwner => t.waiting > 0 && s.child == Exited
       case TellStatus => t.waiting > 0 && s.child == Exited
       case Kill => t.waiting == 0
       case Reap => t.waiting == 0 && s.child == Exited && t.killed > 0
       case Dead => !s.supOwns && !s.ownerSent && !s.readySent
       case Returned => (t.waiting == 0 ==> t.killed > 0 && t.reaped > 0) && s.child == Exited && s.jail != Alive
  }

  predicate Inv(s: State) {
    Ordered(s) && ChildTracked(s) && SupervisorTracked(s) && (s.jail == Alive ==> Referenced(s))
  }

  lemma DeathKeeps(s: State)
    requires Inv(s)
    ensures Inv(Tick(ChildGone(s)))
  {
  }

  lemma ChildEntersJail(s: State)
    requires Inv(s) && Stage(s.child) <= 3
    ensures Inv(Tick(ChildStep(s, true)))
  {
  }

  lemma ChildFailsToAttach(s: State)
    requires Inv(s) && s.child == MadeJail
    ensures Inv(Tick(ChildStep(s, false)))
  {
  }

  lemma ChildIsApproved(s: State)
    requires Inv(s) && s.child == SentOwner && s.approval
    ensures Inv(Tick(ChildStep(s, true)))
  {
  }

  lemma ChildDropsIds(s: State)
    requires Inv(s) && 5 <= Stage(s.child) <= 6
    ensures Inv(Tick(ChildStep(s, true)))
  {
  }

  lemma ChildIsReady(s: State)
    requires Inv(s) && s.child == Dropped && s.channel.takes
    ensures Inv(Tick(ChildStep(s, true)))
  {
  }

  lemma ChildLaunches(s: State)
    requires Inv(s) && s.child == Ready
    ensures Inv(Tick(ChildStep(s, true)))
  {
  }

  lemma ChildKeeps(s: State, ok: bool)
    requires Inv(s)
    ensures Inv(Tick(ChildStep(s, ok)))
  {
    DeathKeeps(s);
    if Stage(s.child) <= 3 && ok {
      ChildEntersJail(s);
    } else if s.child == MadeJail {
      ChildFailsToAttach(s);
    } else if s.child == SentOwner {
      if s.approval && ok {
        ChildIsApproved(s);
      }
    } else if 5 <= Stage(s.child) <= 6 && ok {
      ChildDropsIds(s);
    } else if s.child == Dropped && ok && s.channel.takes {
      ChildIsReady(s);
    } else if s.child == Ready && ok {
      ChildLaunches(s);
    }
  }

  lemma GiveUpKeeps(s: State)
    requires Inv(s) && s.at.waiting == 0 && s.sup != Returned
    ensures Inv(Tick(GiveUp(s)))
  {
  }

  lemma RemovalKeeps(s: State)
    requires Inv(s) && s.at.waiting == 0 && s.at.received > 0 && s.sup != Returned
    ensures Inv(Tick(GiveUp(RemoveJail(s))))
  {
  }

  lemma ReturnKeeps(s: State)
    requires Inv(s) && (s.sup == Wait || s.sup == TellStatus || s.sup == Reap)
    ensures Inv(Tick(SupervisorStep(s, false)))
  {
  }

  lemma HandshakeKeeps(s: State)
    requires Inv(s) && s.sup in {ReceiveOwner, ClearPersistence, SendApproval, ReadReadiness, TellStarted}
    requires (s.sup == ReceiveOwner ==> s.ownerSent) && (s.sup == ReadReadiness ==> s.readySent)
    ensures Inv(Tick(SupervisorStep(s, true)))
  {
  }

  lemma EndingKeeps(s: State)
    requires Inv(s) && ((s.sup == Wait && s.child == Exited) || s.sup == DropOwner)
    ensures Inv(Tick(SupervisorStep(s, true)))
  {
  }

  lemma KillKeeps(s: State)
    requires Inv(s) && s.sup == Kill
    ensures Inv(Tick(SupervisorStep(s, true)))
  {
  }

  predicate Handshaking(v: Supervisor) {
    v in {Isolate, ReceiveOwner, ClearPersistence, SendApproval, ReadReadiness, TellStarted}
  }

  lemma HandshakingKeeps(s: State, ok: bool)
    requires Inv(s) && Handshaking(s.sup)
    ensures Inv(Tick(SupervisorStep(s, ok)))
  {
    GiveUpKeeps(s);
    if !ok && s.sup in {ClearPersistence, SendApproval} {
      RemovalKeeps(s);
    } else if ok && s.sup != Isolate && (s.sup == ReceiveOwner ==> s.ownerSent) && (s.sup == ReadReadiness ==> s.readySent) {
      HandshakeKeeps(s);
    }
  }

  lemma SupervisorKeeps(s: State, ok: bool)
    requires Inv(s)
    ensures Inv(Tick(SupervisorStep(s, ok)))
  {
    if Handshaking(s.sup) {
      HandshakingKeeps(s, ok);
    } else {
      match s.sup
      case Wait => if !ok { ReturnKeeps(s); } else if s.child == Exited { EndingKeeps(s); }
      case DropOwner => EndingKeeps(s);
      case TellStatus => ReturnKeeps(s);
      case Kill => KillKeeps(s);
      case Reap => ReturnKeeps(s);
      case _ =>
    }
  }

  lemma {:induction false} RunKeepsInv(c: Channel, actions: seq<Action>)
    ensures Inv(Run(c, actions))
  {
    if actions != [] {
      var n := |actions| - 1;
      RunKeepsInv(c, actions[..n]);
      StepKeepsInv(Run(c, actions[..n]), actions[n]);
    }
  }

  lemma {:induction false} RunKeepsChannel(c: Channel, actions: seq<Action>)
    ensures Run(c, actions).channel == c
  {
    if actions != [] {
      var n := |actions| - 1;
      RunKeepsChannel(c, actions[..n]);
    }
  }

  lemma StepKeepsInv(s: State, a: Action)
    requires Inv(s)
    ensures Inv(Step(s, a))
  {
    match a
    case ChildActs(ok) => ChildKeeps(s, ok);
    case SupervisorActs(ok) => SupervisorKeeps(s, ok);
    case ChildDies => DeathKeeps(s);
    case SupervisorDies => SupervisorDeathKeeps(s);
  }

  lemma SupervisorDeathKeeps(s: State)
    requires Inv(s)
    ensures Inv(Tick(SupervisorGone(s)))
  {
  }

  // In every interleaving, with either side failing anywhere: the payload runs
  // only under a supervised jail and with the caller's ids; the client hears
  // "started" only from a ready child whose byte can reach the supervisor; an
  // error before waiting has killed and reaped the child; and when the
  // supervisor is gone, so are jail and child.
  lemma EveryInterleavingIsSafe(c: Channel, actions: seq<Action>)
    ensures var s := Run(c, actions);
      && (s.at.executed > 0 ==> 0 < s.at.received < s.at.cleared < s.at.approved < s.at.dropped < s.at.executed)
      && (s.at.executed > 0 ==> c.takes)
      && (s.at.told > 0 ==> 0 < s.at.readied < s.at.told && c.delivers)
      && (s.sup == Returned && s.at.waiting == 0 ==> s.at.killed > 0 && s.at.reaped > 0)
      && (s.sup == Returned ==> s.child == Exited && s.jail != Alive)
      && (s.child == Running ==> s.jail == Alive && s.at.executed > 0)
  {
    RunKeepsInv(c, actions);
    RunKeepsChannel(c, actions);
  }

  // ---------- When the supervisor dies ----------

  // How many steps the child can still take before it is gone.
  function StepsLeft(s: State): nat {
    if s.child == Exited || Stage(s.child) > 4 then 0 else 5 - Stage(s.child)
  }

  lemma DeadIsFinal(s: State, a: Action)
    requires Inv(s) && s.sup == Dead
    ensures Step(s, a).sup == Dead && Step(s, a).at.executed == s.at.executed
    ensures StepsLeft(Step(s, a)) <= StepsLeft(s)
    ensures a.ChildActs? ==> StepsLeft(Step(s, a)) < StepsLeft(s) || s.child == Exited
  {
    assert s.child == Exited || Stage(s.child) <= 4;
  }

  function ChildActions(actions: seq<Action>): nat {
    if actions == [] then 0
    else ChildActions(actions[..|actions| - 1]) + if actions[|actions| - 1].ChildActs? then 1 else 0
  }

  // After the supervisor's death in s, the child has had n steps on the way to after.
  ghost predicate RunsOut(s: State, after: State, n: nat) {
    && after.sup == Dead && after.at.executed == s.at.executed
    && (StepsLeft(after) == 0 || StepsLeft(after) + n <= 5)
  }

  lemma RunsOutFurther(s: State, mid: State, a: Action, n: nat)
    requires RunsOut(s, mid, n) && Inv(mid)
    ensures RunsOut(s, Step(mid, a), n + if a.ChildActs? then 1 else 0)
  {
    DeadIsFinal(mid, a);
  }

  lemma {:induction false} DeadRunsOut(c: Channel, actions: seq<Action>, more: seq<Action>)
    requires Run(c, actions).sup == Dead
    ensures RunsOut(Run(c, actions), Run(c, actions + more), ChildActions(more))
    decreases |more|
  {
    if more == [] {
      assert actions + more == actions;
    } else {
      var n := |more| - 1;
      DeadRunsOut(c, actions, more[..n]);
      assert actions + more == actions + more[..n] + [more[n]];
      Then(c, actions + more[..n], more[n]);
      RunKeepsInv(c, actions + more[..n]);
      RunsOutFurther(Run(c, actions), Run(c, actions + more[..n]), more[n], ChildActions(more[..n]));
    }
  }

  // The supervisor may die at any point. No payload runs from then on or is started
  // later, and once the child has had five more steps it is gone, and the jail too.
  lemma NothingOutlivesSupervisor(c: Channel, actions: seq<Action>, more: seq<Action>)
    requires Run(c, actions).sup == Dead
    ensures var s := Run(c, actions + more);
      && s.child != Running && s.at.executed == Run(c, actions).at.executed
      && (s.jail == Alive ==> s.childOwns)
      && (ChildActions(more) >= 5 ==> s.child == Exited && s.jail != Alive)
  {
    DeadRunsOut(c, actions, more);
    RunKeepsInv(c, actions + more);
  }

  // ---------- When nothing fails ----------

  predicate Succeeds(a: Action) {
    match a
    case ChildActs(ok) => ok
    case SupervisorActs(ok) => ok
    case _ => false
  }

  ghost predicate Smooth(actions: seq<Action>) {
    forall i :: 0 <= i < |actions| ==> Succeeds(actions[i])
  }

  // As long as the byte can get through, nobody is killed, the child ends only by
  // running its payload to the end, and a byte once written waits to be read.
  predicate OnCourse(s: State) {
    && s.at.killed == 0 && s.sup != Kill && s.sup != Reap && s.sup != Dead
    && ((Handshaking(s.sup) && s.at.received > 0) || s.sup == Wait ==> s.supOwns)
    && (s.child == Exited ==> s.at.executed > 0)
    && (s.sup == ReadReadiness && s.at.readied > 0 ==> s.readySent)
  }

  lemma ChildStaysOnCourse(s: State)
    requires Inv(s) && OnCourse(s) && Wired(s.channel) && s.channel.delivers
    ensures OnCourse(Tick(ChildStep(s, true)))
  {
  }

  lemma SupervisorStaysOnCourse(s: State)
    requires Inv(s) && OnCourse(s) && Wired(s.channel) && s.channel.delivers
    ensures OnCourse(Tick(SupervisorStep(s, true)))
  {
  }

  lemma {:induction false} SmoothStaysOnCourse(c: Channel, actions: seq<Action>)
    requires Smooth(actions) && Wired(c) && c.delivers
    ensures OnCourse(Run(c, actions))
  {
    if actions != [] {
      var n := |actions| - 1;
      SmoothStaysOnCourse(c, actions[..n]);
      RunKeepsInv(c, actions[..n]);
      RunKeepsChannel(c, actions[..n]);
      assert Succeeds(actions[n]);
      if actions[n].ChildActs? {
        ChildStaysOnCourse(Run(c, actions[..n]));
      } else {
        SupervisorStaysOnCourse(Run(c, actions[..n]));
      }
    }
  }

  // A finished run without failures has told the client if and only if the
  // mapping left the readiness byte its way to the supervisor.
  lemma ToldWhenDelivered(c: Channel, actions: seq<Action>)
    requires Smooth(actions) && Wired(c) && Run(c, actions).sup == Returned
    ensures Run(c, actions).at.told > 0 <==> c.delivers
  {
    RunKeepsInv(c, actions);
    RunKeepsChannel(c, actions);
    if c.delivers {
      SmoothStaysOnCourse(c, actions);
    }
  }

  // ---------- The mapping decides ----------

  ghost predicate Open(table: map<nat, Entry>, file: File, survivesExec: bool) {
    exists k :: k in table && table[k].file == file && (survivesExec ==> !table[k].closeOnExec)
  }

  // The channel of a child whose table the mapping turned from before into after.
  ghost function ChannelOf(
    before: map<nat, Entry>, after: map<nat, Entry>, lifecycle: nat, isSocket: File -> bool): (c: Channel)
    requires lifecycle in before && lifecycle in after && isSocket(before[lifecycle].file)
    ensures Wired(c)
  {
    var socket := before[lifecycle].file;
    Channel(isSocket(after[lifecycle].file), after[lifecycle].file == socket,
            Open(after, socket, false), Open(after, socket, true))
  }

  // With nothing failing, the client is told if and only if no target is the
  // lifecycle number, or the one that is carries the same socket.
  lemma ReadinessDecided(
    before: map<nat, Entry>, after: map<nat, Entry>, targets: seq<nat>, files: seq<File>, lifecycle: nat,
    isSocket: File -> bool, actions: seq<Action>)
    requires Assigned(before, after, targets, files) && lifecycle in before && isSocket(before[lifecycle].file)
    ensures lifecycle in after
    ensures var c := ChannelOf(before, after, lifecycle, isSocket);
      Smooth(actions) && Run(c, actions).sup == Returned ==>
        (Run(c, actions).at.told > 0 <==>
          forall i :: 0 <= i < |targets| && targets[i] == lifecycle ==> files[i] == before[lifecycle].file)
  {
    assert lifecycle in after by {
      if lifecycle in targets {
        var i :| 0 <= i < |targets| && targets[i] == lifecycle;
        assert targets[i] in after;
      }
    }
    var c := ChannelOf(before, after, lifecycle, isSocket);
    assert c.delivers <==>
      forall i :: 0 <= i < |targets| && targets[i] == lifecycle ==> files[i] == before[lifecycle].file;
    if Smooth(actions) && Run(c, actions).sup == Returned {
      ToldWhenDelivered(c, actions);
    }
  }

  // Mapping another file over the only descriptor of the socket closes it for good.
  lemma OverwrittenIsClosed(
    before: map<nat, Entry>, after: map<nat, Entry>, targets: seq<nat>, files: seq<File>, lifecycle: nat,
    isSocket: File -> bool, i: nat)
    requires Assigned(before, after, targets, files) && lifecycle in before && isSocket(before[lifecycle].file)
    requires i < |targets| && targets[i] == lifecycle && before[lifecycle].file !in files
    requires forall k :: k in before && k != lifecycle ==> before[k].file != before[lifecycle].file
    ensures lifecycle in after
    ensures ChannelOf(before, after, lifecycle, isSocket) == Channel(isSocket(files[i]), false, false, false)
  {
    var socket := before[lifecycle].file;
    forall k | k in after ensures after[k].file != socket {
      if k in targets {
        var j :| 0 <= j < |targets| && targets[j] == k;
        assert files[j] in files;
      }
    }
  }

  // ---------- Runs that happen ----------

  lemma Then(c: Channel, actions: seq<Action>, a: Action)
    ensures Run(c, actions + [a]) == Step(Run(c, actions), a)
  {
    assert (actions + [a])[..|actions|] == actions;
  }

  // n further successful steps of one side.
  function After(s: State, a: Action, n: nat): State {
    Iterate(s, x => Step(x, a), n)
  }

  function Iterate<S>(s: S, step: S -> S, n: nat): S {
    if n == 0 then s else step(Iterate(s, step, n - 1))
  }

  lemma {:induction false} IterateSnoc<S(!new)>(
    run: seq<Action> -> S, actions: seq<Action>, a: Action, step: S -> S, n: nat) returns (longer: seq<Action>)
    requires forall xs: seq<Action> :: run(xs + [a]) == step(run(xs))
    requires Smooth(actions) && Succeeds(a)
    ensures run(longer) == Iterate(run(actions), step, n) && Smooth(longer)
  {
    longer := actions;
    if n > 0 {
      longer := IterateSnoc(run, actions, a, step, n - 1);
      longer := longer + [a];
    }
  }

  lemma ThenRepeated(c: Channel, actions: seq<Action>, a: Action, n: nat) returns (longer: seq<Action>)
    requires Smooth(actions) && Succeeds(a)
    ensures Run(c, longer) == After(Run(c, actions), a, n) && Smooth(longer)
  {
    forall xs: seq<Action> ensures Run(c, xs + [a]) == Step(Run(c, xs), a) {
      Then(c, xs, a);
    }
    longer := IterateSnoc(xs => Run(c, xs), actions, a, x => Step(x, a), n);
  }

  function Offered(c: Channel): State {
    State(5, SentOwner, Isolate, Alive, true, false, true, false, false, Times(0, 0, 0, 0, 0, 0, 0, 0, 0, 0), c)
  }

  function Admitted(c: Channel): State {
    State(9, SentOwner, ReadReadiness, Alive, true, true, false, false, true,
          Times(6, 7, 8, 0, 0, 0, 0, 0, 0, 0), c)
  }

  function Launched(c: Channel): State {
    State(14, Running, ReadReadiness, Alive, false, true, false, c.delivers, false,
          Times(6, 7, 8, 11, 12, 13, 0, 0, 0, 0), c)
  }

  function Told(c: Channel): State {
    State(16, Running, Wait, Alive, false, true, false, false, false,
          Times(6, 7, 8, 11, 12, 13, 15, 15, 0, 0), c)
  }

  lemma OfferIsMade(c: Channel)
    ensures After(Initial(c), ChildActs(true), 4) == Offered(c)
  {
    assert After(Initial(c), ChildActs(true), 2) == After(Initial(c), ChildActs(true), 1).(child := MadeJail,
                                                          jail := Alive, childOwns := true, clock := 3);
  }

  lemma OfferIsAdmitted(c: Channel)
    ensures After(Offered(c), SupervisorActs(true), 4) == Admitted(c)
  {
    assert After(Offered(c), SupervisorActs(true), 2).at.received == 6;
  }

  lemma AdmittedLaunches(c: Channel)
    requires c.takes
    ensures After(Admitted(c), ChildActs(true), 5) == Launched(c)
  {
    AdmittedDrops(c);
    assert After(Admitted(c), ChildActs(true), 4) == Step(Dropping(c), ChildActs(true));
  }

  function Dropping(c: Channel): State {
    State(12, Dropped, ReadReadiness, Alive, false, true, false, false, false,
          Times(6, 7, 8, 11, 0, 0, 0, 0, 0, 0), c)
  }

  lemma AdmittedDrops(c: Channel)
    ensures After(Admitted(c), ChildActs(true), 3) == Dropping(c)
  {
    assert After(Admitted(c), ChildActs(true), 1).child == Approved;
  }

  // Without failures the payload is reached on every mapping whose lifecycle number takes a byte.
  lemma PayloadRuns(c: Channel) returns (actions: seq<Action>)
    requires c.takes
    ensures Smooth(actions) && Run(c, actions) == Launched(c)
  {
    actions := ThenRepeated(c, [], ChildActs(true), 4);
    OfferIsMade(c);
    actions := ThenRepeated(c, actions, SupervisorActs(true), 4);
    OfferIsAdmitted(c);
    actions := ThenRepeated(c, actions, ChildActs(true), 5);
    AdmittedLaunches(c);
  }

  lemma LaunchedIsTold(c: Channel)
    requires c.delivers
    ensures After(Launched(c), SupervisorActs(true), 2) == Told(c)
  {
    assert After(Launched(c), SupervisorActs(true), 1).sup == TellStarted;
  }

  lemma ToldFinishes(c: Channel)
    ensures var s := After(Step(Told(c), ChildActs(true)), SupervisorActs(true), 3);
      s.sup == Returned && s.at.told == 15 && s.at.killed == 0
  {
    assert After(Step(Told(c), ChildActs(true)), SupervisorActs(true), 1).sup == DropOwner;
    assert After(Step(Told(c), ChildActs(true)), SupervisorActs(true), 2).sup == TellStatus;
  }

  // A mapping that leaves the channel alone: the launch is told, runs to its end and is reported.
  lemma LaunchSucceeds(c: Channel) returns (actions: seq<Action>)
    requires Wired(c) && c.delivers
    ensures Smooth(actions) && Run(c, actions).sup == Returned
    ensures Run(c, actions).at.told > 0 && Run(c, actions).at.killed == 0
  {
    actions := PayloadRuns(c);
    actions := ThenRepeated(c, actions, SupervisorActs(true), 2);
    LaunchedIsTold(c);
    Then(c, actions, ChildActs(true));
    actions := actions + [ChildActs(true)];
    actions := ThenRepeated(c, actions, SupervisorActs(true), 3);
    ToldFinishes(c);
  }

  lemma LaunchedIsKilled(c: Channel)
    requires !c.delivers && !c.executed
    ensures var s := After(Launched(c), SupervisorActs(true), 3);
      s.sup == Returned && s.at.told == 0 && 0 < s.at.executed < s.at.killed
  {
    assert After(Launched(c), SupervisorActs(true), 1).sup == Kill;
    assert After(Launched(c), SupervisorActs(true), 2).sup == Reap;
  }

  // A mapping that replaces the channel by another socket: without any failure the
  // payload starts, is killed, and the client is never told.
  lemma LaunchIsLost(
    before: map<nat, Entry>, after: map<nat, Entry>, targets: seq<nat>, files: seq<File>, lifecycle: nat,
    isSocket: File -> bool, i: nat) returns (actions: seq<Action>)
    requires Assigned(before, after, targets, files) && lifecycle in before && isSocket(before[lifecycle].file)
    requires i < |targets| && targets[i] == lifecycle && before[lifecycle].file !in files && isSocket(files[i])
    requires forall k :: k in before && k != lifecycle ==> before[k].file != before[lifecycle].file
    ensures lifecycle in after && Smooth(actions)
    ensures var s := Run(ChannelOf(before, after, lifecycle, isSocket), actions);
      s.sup == Returned && s.at.told == 0 && 0 < s.at.executed < s.at.killed
  {
    OverwrittenIsClosed(before, after, targets, files, lifecycle, isSocket, i);
    var c := ChannelOf(before, after, lifecycle, isSocket);
    actions := PayloadRuns(c);
    actions := ThenRepeated(c, actions, SupervisorActs(true), 3);
    LaunchedIsKilled(c);
  }
}
