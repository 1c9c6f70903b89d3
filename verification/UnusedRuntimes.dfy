// Finding the installed runtimes that nothing needs any more, and removing them.
module UnusedRuntimes {
  import opened Collections
  import opened Text
  import opened Extensions

  datatype App = App(appRef: string, runtimeRef: string, appDir: string, runtimeDir: string)
  // The app of a run record is None when its deployment cannot be read.
  datatype RunRecord = RunRecord(app: Option<App>, extensionRefs: seq<string>)
  datatype RuntimeRecord = RuntimeRecord(dir: string, origin: string, explicit: bool)
  datatype Deployment = Deployment(ref: string, dir: string, origin: string)

  // metadata holds the extension points of every directory whose metadata is readable.
  datatype Installation = Installation(apps: seq<App>, runs: seq<RunRecord>, runtimes: map<string, RuntimeRecord>,
                                       deployments: seq<Deployment>, metadata: map<string, seq<Point>>)

  // ---------- What is needed ----------

  function WithoutKind(ref: string): string {
    if "app/" <= ref then ref[4..] else if PREFIX <= ref then ref[|PREFIX|..] else ref
  }

  function ParentOf(ref: string): Option<Parent> {
    var f := SplitN(WithoutKind(ref), '/', 3);
    if |f| < 3 || f[1] == "" || f[2] == "" then None else Some(Parent(f[1], f[2]))
  }

  function Available(inst: Installation): set<string> { set r | r in inst.runtimes :: PREFIX + r }

  // The installed apps and those that are still running.
  ghost predicate InUse(inst: Installation, app: App) {
    app in inst.apps || exists run :: run in inst.runs && run.app == Some(app)
  }

  function RuntimeDir(inst: Installation, app: App): string {
    if app.runtimeRef in inst.runtimes then inst.runtimes[app.runtimeRef].dir else app.runtimeDir
  }

  // The metadata in dir, read on behalf of parent, keeps ref.
  ghost predicate SourceNeeds(inst: Installation, facts: Facts, dir: string, parent: string, ref: string) {
    && dir in inst.metadata && ParentOf(parent).Some?
    && Applicable(inst.metadata[dir], ParentOf(parent).value, Available(inst), facts, ref)
  }

  ghost predicate Needs(inst: Installation, facts: Facts, app: App, ref: string) {
    || SourceNeeds(inst, facts, app.appDir, app.appRef, ref)
    || SourceNeeds(inst, facts, RuntimeDir(inst, app), app.runtimeRef, ref)
  }

  predicate Malformed(inst: Installation, app: App) {
    || (app.appDir in inst.metadata && ParentOf(app.appRef).None?)
    || (RuntimeDir(inst, app) in inst.metadata && ParentOf(app.runtimeRef).None?)
  }

  ghost predicate Required(inst: Installation, facts: Facts, ref: string) {
    || (exists app :: InUse(inst, app) && Needs(inst, facts, app, ref))
    || (exists run :: run in inst.runs && ref in run.extensionRefs)
  }

  // A runtime that an app, a run record, an explicit install or a kept extension holds on to.
  ghost predicate Rooted(inst: Installation, facts: Facts, runtime: string) {
    || (exists app :: InUse(inst, app) && app.runtimeRef == runtime)
    || Required(inst, facts, PREFIX + runtime)
    || (runtime in inst.runtimes && inst.runtimes[runtime].explicit)
  }

  predicate Present(inst: Installation, runtime: string) {
    runtime in inst.runtimes || exists d :: d in inst.deployments && d.ref == runtime
  }

  ghost predicate Unused(inst: Installation, facts: Facts, runtime: string) {
    Present(inst, runtime) && !Rooted(inst, facts, runtime)
  }

  // ---------- Planning ----------

  method AppRequires(inst: Installation, facts: Facts, app: App) returns (refs: Option<set<string>>)
    ensures refs.None? <==> Malformed(inst, app)
    ensures refs.Some? ==> forall r :: r in refs.value <==> Needs(inst, facts, app, r)
  {
    var found := {};
    if app.appDir in inst.metadata {
      var parent := ParentOf(app.appRef);
      if parent.None? {
        return None;
      }
      found := ApplicableRefs(inst.metadata[app.appDir], parent.value, Available(inst), facts);
    }
    var dir := RuntimeDir(inst, app);
    if dir in inst.metadata {
      var parent := ParentOf(app.runtimeRef);
      if parent.None? {
        return None;
      }
      var more := ApplicableRefs(inst.metadata[dir], parent.value, Available(inst), facts);
      found := found + more;
    }
    refs := Some(found);
  }

  method AppsInUse(inst: Installation) returns (apps: seq<App>)
    ensures forall app :: app in apps <==> InUse(inst, app)
  {
    apps := inst.apps;
    for i := 0 to |inst.runs|
      invariant forall app :: app in apps <==>
        app in inst.apps || exists j :: 0 <= j < i && inst.runs[j].app == Some(app)
    {
      if inst.runs[i].app.Some? {
        apps := apps + [inst.runs[i].app.value];
      }
    }
  }

  method RefsOfApps(inst: Installation, facts: Facts, apps: seq<App>) returns (refs: Option<set<string>>)
    ensures refs.None? <==> exists app :: app in apps && Malformed(inst, app)
    ensures refs.Some? ==> forall r :: r in refs.value <==> exists app :: app in apps && Needs(inst, facts, app, r)
  {
    var found := {};
    for i := 0 to |apps|
      invariant forall app :: app in apps[..i] ==> !Malformed(inst, app)
      invariant forall r :: r in found <==> exists app :: app in apps[..i] && Needs(inst, facts, app, r)
    {
      var more := AppRequires(inst, facts, apps[i]);
      assert apps[..i + 1] == apps[..i] + [apps[i]];
      if more.None? {
        assert apps[i] in apps;
        return None;
      }
      found := found + more.value;
    }
    assert apps[..|apps|] == apps;
    refs := Some(found);
  }

  method RequiredRefs(inst: Installation, facts: Facts, apps: seq<App>) returns (refs: Option<set<string>>)
    requires forall app :: app in apps <==> InUse(inst, app)
    ensures refs.None? <==> exists app :: InUse(inst, app) && Malformed(inst, app)
    ensures refs.Some? ==> forall r :: r in refs.value <==> Required(inst, facts, r)
  {
    refs := RefsOfApps(inst, facts, apps);
    if refs.None? {
      return;
    }
    var found := refs.value;
    for i := 0 to |inst.runs|
      invariant forall r :: r in found <==>
        r in refs.value || exists j :: 0 <= j < i && r in inst.runs[j].extensionRefs
    {
      found := found + set r | r in inst.runs[i].extensionRefs;
    }
    refs := Some(found);
  }

  // The plan holds exactly the unused runtimes.
  method PlanUnused(inst: Installation, facts: Facts) returns (plan: Option<set<string>>)
    ensures plan.None? <==> exists app :: InUse(inst, app) && Malformed(inst, app)
    ensures plan.Some? ==> forall r :: r in plan.value <==> Unused(inst, facts, r)
  {
    var apps := AppsInUse(inst);
    var required := RequiredRefs(inst, facts, apps);
    if required.None? {
      return None;
    }
    var roots := set app | app in apps :: app.runtimeRef;
    roots := roots + set ref | ref in required.value && PREFIX <= ref :: ref[|PREFIX|..];
    roots := roots + set r | r in inst.runtimes && inst.runtimes[r].explicit;
    var candidates := inst.runtimes.Keys + set d | d in inst.deployments :: d.ref;
    forall r ensures r in roots <==> Rooted(inst, facts, r) {
      RestOfFormat(PREFIX, r);
      if Required(inst, facts, PREFIX + r) {
        assert PREFIX + r in required.value;
      }
      if ref :| ref in required.value && PREFIX <= ref && ref[|PREFIX|..] == r {
        PrefixAndRest(PREFIX, ref);
      }
    }
    plan := Some(candidates - roots);
  }

  // ---------- Removing ----------

  ghost predicate DirOf(inst: Installation, runtime: string, dir: string) {
    || (runtime in inst.runtimes && inst.runtimes[runtime].dir == dir)
    || exists d :: d in inst.deployments && d.ref == runtime && d.dir == dir
  }

  function PlannedDirs(inst: Installation, plan: set<string>): (dirs: set<string>)
    ensures forall dir :: dir in dirs <==> exists r :: r in plan && DirOf(inst, r, dir)
  {
    (set r | r in plan && r in inst.runtimes :: inst.runtimes[r].dir)
    + set d | d in inst.deployments && d.ref in plan :: d.dir
  }

  function Spared(plan: set<string>): Deployment -> bool {
    (d: Deployment) => d.ref !in plan
  }

  // The runtimes in done lost their records, and the directories in lost their contents.
  function Partial(inst: Installation, done: set<string>, lost: set<string>): Installation {
    inst.(runtimes := inst.runtimes - done,
          deployments := Filter(inst.deployments, Spared(done)),
          metadata := inst.metadata - lost)
  }

  // Each planned runtime loses its directories and its record.
  function Remove(inst: Installation, plan: set<string>): Installation {
    Partial(inst, plan, PlannedDirs(inst, plan))
  }

  lemma PartialMore(inst: Installation, done: set<string>, r: string, lost: set<string>, more: set<string>)
    ensures Partial(inst, done + {r}, lost + more) ==
            Partial(inst, done, lost).(
              runtimes := Partial(inst, done, lost).runtimes - {r},
              deployments := Filter(Partial(inst, done, lost).deployments, Spared({r})),
              metadata := Partial(inst, done, lost).metadata - more)
  {
    FilterTwice(inst.deployments, Spared(done), Spared({r}), Spared(done + {r}));
    MinusTwice(inst.metadata, lost, more);
    MinusTwice(inst.runtimes, done, {r});
  }

  lemma MinusTwice<K, V>(m: map<K, V>, a: set<K>, b: set<K>)
    ensures m - a - b == m - (a + b)
  {
  }

  // Removing one planned runtime: its directories and record go, or an error stops
  // the removal after some of its directories.
  datatype Removal = Removed | Stopped(gone: set<string>)

  // The directories that this removal took.
  function Gone(inst: Installation, r: string, removal: Removal): set<string> {
    if removal.Removed? then PlannedDirs(inst, {r}) else removal.gone * PlannedDirs(inst, {r})
  }

  method RemoveOne(inst: Installation, current: Installation, r: string, removal: Removal,
                   ghost done: set<string>, ghost lost: set<string>)
    returns (after: Installation)
    requires current == Partial(inst, done, lost)
    ensures after == Partial(inst, if removal.Removed? then done + {r} else done, lost + Gone(inst, r, removal))
  {
    var gone := Gone(inst, r, removal);
    if removal.Removed? {
      PartialMore(inst, done, r, lost, gone);
      after := current.(
        runtimes := current.runtimes - {r},
        deployments := Filter(current.deployments, Spared({r})),
        metadata := current.metadata - gone);
    } else {
      MinusTwice(inst.metadata, lost, gone);
      after := current.(metadata := current.metadata - gone);
    }
  }

  // The plan is applied in order up to the first error. What is gone then are whole
  // planned runtimes, and beyond them only directories of the one it stopped at.
  method ApplyPlan(inst: Installation, plan: seq<string>, removals: nat -> Removal, ghost all: set<string>)
    returns (ok: bool, after: Installation, ghost done: set<string>, ghost lost: set<string>)
    requires forall r :: r in all <==> r in plan
    ensures after == Partial(inst, done, lost) && done <= all
    ensures PlannedDirs(inst, done) <= lost <= PlannedDirs(inst, all)
    ensures ok <==> forall i :: 0 <= i < |plan| ==> removals(i).Removed?
    ensures ok ==> done == all && after == Remove(inst, all)
    ensures !ok ==> exists i :: 0 <= i < |plan| && StoppedAt(inst, plan, removals, done, lost, i)
  {
    after, done, lost := inst, {}, {};
    FilterAll(inst.deployments, Spared({}));
    for i := 0 to |plan|
      invariant after == Partial(inst, done, lost) && lost == PlannedDirs(inst, done) && done <= all
      invariant forall r :: r in done <==> exists j :: 0 <= j < i && plan[j] == r
      invariant forall j :: 0 <= j < i ==> removals(j).Removed?
    {
      after := RemoveOne(inst, after, plan[i], removals(i), done, lost);
      ghost var gone := Gone(inst, plan[i], removals(i));
      if removals(i).Stopped? {
        lost := lost + gone;
        assert StoppedAt(inst, plan, removals, done, lost, i);
        return false, after, done, lost;
      }
      assert PlannedDirs(inst, done + {plan[i]}) == PlannedDirs(inst, done) + PlannedDirs(inst, {plan[i]});
      done, lost := done + {plan[i]}, lost + gone;
    }
    assert done == all;
    ok := true;
  }

  ghost predicate StoppedAt(inst: Installation, plan: seq<string>, removals: nat -> Removal, done: set<string>,
                            lost: set<string>, i: nat)
    requires i < |plan|
  {
    && removals(i).Stopped? && (forall j :: 0 <= j < i ==> removals(j).Removed?)
    && (forall r :: r in done <==> exists j :: 0 <= j < i && plan[j] == r)
    && lost <= PlannedDirs(inst, done) + PlannedDirs(inst, {plan[i]})
  }

  // ---------- What a removal, complete or not, leaves working ----------

  ghost predicate OnlyUnused(inst: Installation, facts: Facts, done: set<string>) {
    forall r :: r in done ==> Unused(inst, facts, r)
  }

  ghost predicate IsPlan(inst: Installation, facts: Facts, plan: set<string>) {
    forall r :: r in plan <==> Unused(inst, facts, r)
  }

  // No app in use reads metadata in these directories.
  ghost predicate ReadByNone(inst: Installation, lost: set<string>) {
    forall app :: InUse(inst, app) ==> app.appDir !in lost && RuntimeDir(inst, app) !in lost
  }

  // A runtime's directory is no app's directory and serves no app built on another runtime.
  ghost predicate Separate(inst: Installation) {
    forall r, dir, app :: DirOf(inst, r, dir) && InUse(inst, app) ==>
      dir != app.appDir && (dir == RuntimeDir(inst, app) ==> r == app.runtimeRef)
  }

  // In an installation laid out like that, a plan never takes a directory that is read.
  lemma SeparateIsReadByNone(inst: Installation, facts: Facts, plan: set<string>)
    requires Separate(inst) && OnlyUnused(inst, facts, plan)
    ensures ReadByNone(inst, PlannedDirs(inst, plan))
  {
    forall app | InUse(inst, app)
      ensures app.appDir !in PlannedDirs(inst, plan) && RuntimeDir(inst, app) !in PlannedDirs(inst, plan)
    {
      assert Rooted(inst, facts, app.runtimeRef);
    }
  }

  lemma RuntimeDirStays(inst: Installation, facts: Facts, done: set<string>, lost: set<string>, app: App)
    requires OnlyUnused(inst, facts, done) && InUse(inst, app)
    ensures RuntimeDir(Partial(inst, done, lost), app) == RuntimeDir(inst, app)
  {
    assert Rooted(inst, facts, app.runtimeRef);
  }

  // What is left available are exactly the refs of the runtimes that stay.
  lemma AvailableAfter(inst: Installation, done: set<string>, lost: set<string>, ref: string)
    ensures ref in Available(Partial(inst, done, lost)) <==>
            ref in Available(inst) && !(PREFIX <= ref && ref[|PREFIX|..] in done)
  {
    if PREFIX <= ref {
      PrefixAndRest(PREFIX, ref);
    }
    forall r ensures (PREFIX + r)[|PREFIX|..] == r {
      RestOfFormat(PREFIX, r);
    }
  }

  lemma KeptRefStaysAvailable(
    inst: Installation, facts: Facts, done: set<string>, lost: set<string>, app: App, ref: string)
    requires OnlyUnused(inst, facts, done) && InUse(inst, app) && Needs(inst, facts, app, ref)
    ensures ref in Available(Partial(inst, done, lost))
  {
    assert ref in Available(inst);
    AvailableAfter(inst, done, lost, ref);
    if PREFIX <= ref {
      PrefixAndRest(PREFIX, ref);
      assert Required(inst, facts, ref);
    }
  }

  ghost predicate SourceOf(inst: Installation, app: App, dir: string, parent: string) {
    (dir == app.appDir && parent == app.appRef) || (dir == RuntimeDir(inst, app) && parent == app.runtimeRef)
  }

  lemma SourceIsStable(
    inst: Installation, facts: Facts, done: set<string>, lost: set<string>, app: App, dir: string, parent: string,
    ref: string)
    requires OnlyUnused(inst, facts, done) && InUse(inst, app) && SourceOf(inst, app, dir, parent) && dir !in lost
    ensures SourceNeeds(Partial(inst, done, lost), facts, dir, parent, ref) <==>
            SourceNeeds(inst, facts, dir, parent, ref)
  {
    var after := Partial(inst, done, lost);
    if dir in inst.metadata && ParentOf(parent).Some? {
      var points, p := inst.metadata[dir], ParentOf(parent).value;
      forall r | Applicable(points, p, Available(inst), facts, r) ensures r in Available(after) {
        assert SourceNeeds(inst, facts, dir, parent, r);
        KeptRefStaysAvailable(inst, facts, done, lost, app, r);
      }
      forall r | r in Available(after) ensures r in Available(inst) {
        AvailableAfter(inst, done, lost, r);
      }
      PruningIsStable(points, p, Available(inst), Available(after), facts, ref);
    }
  }

  // A source of an app keeps exactly its extensions if and only if its directory
  // stays, or it kept none.
  lemma SourceSurvivesExactly(
    inst: Installation, facts: Facts, done: set<string>, lost: set<string>, app: App, dir: string, parent: string)
    requires OnlyUnused(inst, facts, done) && InUse(inst, app) && SourceOf(inst, app, dir, parent)
    ensures (forall ref :: SourceNeeds(Partial(inst, done, lost), facts, dir, parent, ref) <==>
                           SourceNeeds(inst, facts, dir, parent, ref))
       <==> dir !in lost || forall ref :: !SourceNeeds(inst, facts, dir, parent, ref)
  {
    if dir !in lost {
      forall ref ensures SourceNeeds(Partial(inst, done, lost), facts, dir, parent, ref) <==>
                         SourceNeeds(inst, facts, dir, parent, ref)
      {
        SourceIsStable(inst, facts, done, lost, app, dir, parent, ref);
      }
    }
  }

  // What an app needs through the directories that stay.
  ghost predicate NeedsOutside(inst: Installation, facts: Facts, lost: set<string>, app: App, ref: string) {
    || (app.appDir !in lost && SourceNeeds(inst, facts, app.appDir, app.appRef, ref))
    || (RuntimeDir(inst, app) !in lost && SourceNeeds(inst, facts, RuntimeDir(inst, app), app.runtimeRef, ref))
  }

  // After a removal, complete or stopped, every app resolves exactly the extensions it
  // kept through the directories that stay; so all of them if it reads no lost directory.
  lemma ExtensionsSurvive(
    inst: Installation, facts: Facts, done: set<string>, lost: set<string>, app: App, ref: string)
    requires OnlyUnused(inst, facts, done) && InUse(inst, app)
    ensures Needs(Partial(inst, done, lost), facts, app, ref) <==> NeedsOutside(inst, facts, lost, app, ref)
    ensures app.appDir !in lost && RuntimeDir(inst, app) !in lost ==>
      (Needs(Partial(inst, done, lost), facts, app, ref) <==> Needs(inst, facts, app, ref))
  {
    RuntimeDirStays(inst, facts, done, lost, app);
    if app.appDir !in lost {
      SourceIsStable(inst, facts, done, lost, app, app.appDir, app.appRef, ref);
    }
    if RuntimeDir(inst, app) !in lost {
      SourceIsStable(inst, facts, done, lost, app, RuntimeDir(inst, app), app.runtimeRef, ref);
    }
  }

  // What holds on to a runtime once the lost directories no longer count.
  ghost predicate RootedOutside(inst: Installation, facts: Facts, lost: set<string>, runtime: string) {
    || (exists app :: InUse(inst, app) && app.runtimeRef == runtime)
    || (exists app :: InUse(inst, app) && NeedsOutside(inst, facts, lost, app, PREFIX + runtime))
    || (exists run :: run in inst.runs && PREFIX + runtime in run.extensionRefs)
    || (runtime in inst.runtimes && inst.runtimes[runtime].explicit)
  }

  lemma RootsAfter(inst: Installation, facts: Facts, done: set<string>, lost: set<string>, runtime: string)
    requires OnlyUnused(inst, facts, done) && runtime !in done
    ensures Rooted(Partial(inst, done, lost), facts, runtime) <==> RootedOutside(inst, facts, lost, runtime)
  {
    var after := Partial(inst, done, lost);
    assert forall app :: InUse(after, app) <==> InUse(inst, app);
    forall app | InUse(inst, app)
      ensures Needs(after, facts, app, PREFIX + runtime) <==> NeedsOutside(inst, facts, lost, app, PREFIX + runtime)
    {
      ExtensionsSurvive(inst, facts, done, lost, app, PREFIX + runtime);
    }
  }

  lemma NothingReadNothingUnrooted(inst: Installation, facts: Facts, lost: set<string>, runtime: string)
    requires ReadByNone(inst, lost)
    ensures RootedOutside(inst, facts, lost, runtime) <==> Rooted(inst, facts, runtime)
  {
    assert forall app, ref :: InUse(inst, app) ==>
      (NeedsOutside(inst, facts, lost, app, ref) <==> Needs(inst, facts, app, ref));
  }

  // Planning again after any removal yields exactly the runtimes still there that
  // nothing holds on to outside the lost directories. If no app reads those, these
  // are the unused runtimes that the removal did not reach.
  lemma ReplanResumes(inst: Installation, facts: Facts, done: set<string>, lost: set<string>, runtime: string)
    requires OnlyUnused(inst, facts, done)
    ensures Unused(Partial(inst, done, lost), facts, runtime) <==>
            Present(inst, runtime) && runtime !in done && !RootedOutside(inst, facts, lost, runtime)
    ensures ReadByNone(inst, lost) ==>
      (Unused(Partial(inst, done, lost), facts, runtime) <==> Unused(inst, facts, runtime) && runtime !in done)
  {
    FilterMembers(inst.deployments, Spared(done));
    if runtime !in done {
      RootsAfter(inst, facts, done, lost, runtime);
    }
    if ReadByNone(inst, lost) {
      NothingReadNothingUnrooted(inst, facts, lost, runtime);
    }
  }

  // After a complete removal, planning again finds exactly the kept runtimes that only
  // extensions needed through the removed directories held on to. If no app reads
  // those directories there are none, and one pass suffices.
  lemma SecondPlanIsEmpty(inst: Installation, facts: Facts, plan: set<string>, runtime: string)
    requires IsPlan(inst, facts, plan)
    ensures Unused(Remove(inst, plan), facts, runtime) <==>
            Present(inst, runtime) && Rooted(inst, facts, runtime)
            && !RootedOutside(inst, facts, PlannedDirs(inst, plan), runtime)
    ensures ReadByNone(inst, PlannedDirs(inst, plan)) ==> !Unused(Remove(inst, plan), facts, runtime)
  {
    ReplanResumes(inst, facts, plan, PlannedDirs(inst, plan), runtime);
  }
}
