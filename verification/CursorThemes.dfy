// Icon and cursor themes shared with a sandbox: the requested themes and
// everything they inherit from, as far as the host has it.
module CursorThemes {
  import opened Collections
  import opened Text
  import opened Reachability

  datatype ThemeMount = ThemeMount(theme: string, hostPath: string)

  predicate IsRuntimeTheme(theme: string) {
    theme == "Adwaita" || theme == "AdwaitaLegacy" || theme == "hicolor"
  }

  // One ordinary path component, possibly followed by separators and "." components.
  predicate ValidThemeName(theme: string) {
    var parts := Split(theme, '/');
    && parts[0] != "" && parts[0] != "." && parts[0] != ".."
    && forall i :: 1 <= i < |parts| ==> parts[i] == "" || parts[i] == "."
  }

  // The themes found on the host with their directories, and what each directory's
  // index says it inherits from.
  datatype Host = Host(dirs: map<string, string>, inherits: string -> seq<string>) {
    predicate Shared(theme: string) {
      theme in dirs && !IsRuntimeTheme(theme)
    }

    function Parents(theme: string): seq<string>
      requires theme in dirs
    {
      inherits(dirs[theme])
    }

    function Inherits(): (string, string) -> bool {
      (theme, parent) => Shared(theme) && parent in Parents(theme) && ValidThemeName(parent)
    }
  }

  function Requested(themes: set<string>): string -> bool {
    theme => theme in themes
  }

  ghost predicate Wanted(host: Host, themes: set<string>, theme: string) {
    Reachable(Requested(themes), host.Inherits(), theme)
  }

  ghost predicate Mounted(host: Host, mounts: seq<ThemeMount>, seen: set<string>) {
    && (forall i :: 0 <= i < |mounts| ==>
      mounts[i].theme in seen && host.Shared(mounts[i].theme) && mounts[i].hostPath == host.dirs[mounts[i].theme])
    && (forall i, j :: 0 <= i < j < |mounts| ==> mounts[i].theme != mounts[j].theme)
    && forall theme :: theme in seen && host.Shared(theme) ==> ThemeMount(theme, host.dirs[theme]) in mounts
  }

  // The requested themes the host lacks, each once.
  ghost predicate Warned(host: Host, themes: set<string>, warnings: seq<string>, seen: set<string>) {
    && NoRepeats(warnings)
    && forall theme :: theme in warnings <==>
      theme in seen && theme in themes && theme !in host.dirs && !IsRuntimeTheme(theme)
  }

  // Everything seen is wanted, and every wanted theme is seen or waiting.
  ghost predicate Progress(host: Host, themes: set<string>, seen: set<string>, queue: seq<string>) {
    && (forall theme :: theme in seen || theme in queue ==> Wanted(host, themes, theme))
    && (forall theme :: theme in themes ==> theme in seen || theme in queue)
    && forall theme, parent :: theme in seen && host.Inherits()(theme, parent) ==> parent in seen || parent in queue
  }

  method Enqueue(host: Host, themes: set<string>, theme: string, seen: set<string>, queue: seq<string>)
    returns (longer: seq<string>)
    requires host.Shared(theme) && Wanted(host, themes, theme)
    ensures queue <= longer
    ensures forall t :: t in longer ==> t in queue || Wanted(host, themes, t)
    ensures forall parent :: host.Inherits()(theme, parent) ==> parent in seen || parent in longer
  {
    longer := queue;
    var parents := host.Parents(theme);
    for i := 0 to |parents|
      invariant queue <= longer
      invariant forall t :: t in longer ==> t in queue || Wanted(host, themes, t)
      invariant forall j :: 0 <= j < i && ValidThemeName(parents[j]) ==> parents[j] in seen || parents[j] in longer
    {
      if ValidThemeName(parents[i]) && parents[i] !in seen {
        StepIsReachable(Requested(themes), host.Inherits(), theme, parents[i]);
        longer := longer + [parents[i]];
      }
    }
  }

  // Whatever the visited theme leads to is now waiting.
  lemma ProgressAfter(
    host: Host, themes: set<string>, seen: set<string>, theme: string, rest: seq<string>, queue: seq<string>)
    requires Progress(host, themes, seen, [theme] + rest) && rest <= queue
    requires forall t :: t in queue ==> t in rest || Wanted(host, themes, t)
    requires forall parent :: host.Inherits()(theme, parent) ==>
      parent in seen + {theme} || parent in queue || theme in seen
    ensures Progress(host, themes, seen + {theme}, queue)
  {
    var was, now := [theme] + rest, seen + {theme};
    assert theme in was;
    forall t ensures (t in was ==> t in now || t in queue) && (t in rest ==> t in was) {
      if t in rest {
        assert rest == queue[..|rest|];
      }
    }
    forall t, parent | t in now && host.Inherits()(t, parent) ensures parent in now || parent in queue {
      if t in seen {
        assert parent in seen || parent in was;
      }
    }
  }

  lemma MountedAfter(host: Host, mounts: seq<ThemeMount>, seen: set<string>, theme: string)
    requires Mounted(host, mounts, seen) && theme !in seen
    ensures host.Shared(theme) ==> Mounted(host, mounts + [ThemeMount(theme, host.dirs[theme])], seen + {theme})
    ensures !host.Shared(theme) ==> Mounted(host, mounts, seen + {theme})
  {
  }

  lemma WarnedAfter(host: Host, themes: set<string>, warnings: seq<string>, seen: set<string>, theme: string)
    requires Warned(host, themes, warnings, seen) && theme !in seen
    ensures
      if theme in themes && theme !in host.dirs && !IsRuntimeTheme(theme)
      then Warned(host, themes, warnings + [theme], seen + {theme})
      else Warned(host, themes, warnings, seen + {theme})
  {
    assert theme !in warnings;
  }

  // Exactly the themes reachable from the request that the host has and the runtime
  // does not bring, each mounted once from where it was found.
  method ThemeMounts(host: Host, themes: set<string>, order: seq<string>)
    returns (mounts: seq<ThemeMount>, warnings: seq<string>)
    requires forall theme :: theme in order <==> theme in themes
    ensures forall i, j :: 0 <= i < j < |mounts| ==> mounts[i].theme != mounts[j].theme
    ensures forall m :: m in mounts <==>
      Wanted(host, themes, m.theme) && host.Shared(m.theme) && m.hostPath == host.dirs[m.theme]
    ensures NoRepeats(warnings)
    ensures forall theme :: theme in warnings <==>
      theme in themes && theme !in host.dirs && !IsRuntimeTheme(theme)
  {
    var search := Start(host, themes, order);
    while search.queue != []
      invariant InProgress(host, themes, search)
      decreases |host.dirs.Keys - search.seen|, |search.queue|
    {
      search := Step(host, themes, search);
    }
    Finished(host, themes, search);
    mounts, warnings := search.mounts, search.warnings;
  }

  datatype Search = Search(seen: set<string>, queue: seq<string>, mounts: seq<ThemeMount>, warnings: seq<string>)

  ghost predicate InProgress(host: Host, themes: set<string>, search: Search) {
    && Progress(host, themes, search.seen, search.queue)
    && Mounted(host, search.mounts, search.seen)
    && Warned(host, themes, search.warnings, search.seen)
  }

  method Start(host: Host, themes: set<string>, order: seq<string>) returns (search: Search)
    requires forall theme :: theme in order <==> theme in themes
    ensures InProgress(host, themes, search)
  {
    forall theme | theme in order ensures Wanted(host, themes, theme) {
      StartIsReachable(Requested(themes), host.Inherits(), theme);
    }
    search := Search({}, order, [], []);
  }

  method Step(host: Host, themes: set<string>, search: Search) returns (next: Search)
    requires InProgress(host, themes, search) && search.queue != []
    ensures InProgress(host, themes, next)
    ensures |host.dirs.Keys - next.seen| <= |host.dirs.Keys - search.seen|
    ensures |host.dirs.Keys - next.seen| < |host.dirs.Keys - search.seen| || |next.queue| < |search.queue|
  {
    var theme, rest := search.queue[0], search.queue[1..];
    assert search.queue == [theme] + rest && theme in search.queue;
    if theme in search.seen {
      ProgressAfter(host, themes, search.seen, theme, rest, rest);
      assert search.seen + {theme} == search.seen;
      next := search.(queue := rest);
    } else {
      SeenShrinks(host, search.seen, theme);
      next := VisitNext(host, themes, search, theme, rest);
    }
  }

  method VisitNext(host: Host, themes: set<string>, search: Search, theme: string, rest: seq<string>)
    returns (next: Search)
    requires InProgress(host, themes, search) && search.queue == [theme] + rest && theme !in search.seen
    requires Wanted(host, themes, theme)
    ensures InProgress(host, themes, next) && next.seen == search.seen + {theme}
    ensures !host.Shared(theme) ==> next.queue == rest
  {
    var queue, mounts, warnings := Visit(host, themes, theme, search.seen, rest, search.mounts, search.warnings);
    next := Search(search.seen + {theme}, queue, mounts, warnings);
    ProgressAfter(host, themes, search.seen, theme, rest, queue);
    MountedAfter(host, search.mounts, search.seen, theme);
    WarnedAfter(host, themes, search.warnings, search.seen, theme);
  }

  lemma Finished(host: Host, themes: set<string>, search: Search)
    requires InProgress(host, themes, search) && search.queue == []
    ensures forall i, j :: 0 <= i < j < |search.mounts| ==> search.mounts[i].theme != search.mounts[j].theme
    ensures forall m :: m in search.mounts <==>
      Wanted(host, themes, m.theme) && host.Shared(m.theme) && m.hostPath == host.dirs[m.theme]
    ensures forall theme :: theme in search.warnings <==>
      theme in themes && theme !in host.dirs && !IsRuntimeTheme(theme)
  {
    AllSeen(host, themes, search.seen);
    forall m: ThemeMount | Wanted(host, themes, m.theme) && host.Shared(m.theme) && m.hostPath == host.dirs[m.theme]
      ensures m in search.mounts
    {
      assert m == ThemeMount(m.theme, host.dirs[m.theme]);
    }
  }

  lemma SeenShrinks(host: Host, seen: set<string>, theme: string)
    requires theme !in seen
    ensures |host.dirs.Keys - (seen + {theme})| <= |host.dirs.Keys - seen|
    ensures host.Shared(theme) ==> |host.dirs.Keys - (seen + {theme})| < |host.dirs.Keys - seen|
  {
    assert host.dirs.Keys - (seen + {theme}) == (host.dirs.Keys - seen) - {theme};
  }

  lemma AllSeen(host: Host, themes: set<string>, seen: set<string>)
    requires Progress(host, themes, seen, [])
    ensures forall theme :: Wanted(host, themes, theme) <==> theme in seen
  {
    forall theme ensures Wanted(host, themes, theme) ==> theme in seen {
      ClosedHoldsReachable(Requested(themes), host.Inherits(), (t: string) => t in seen, theme);
    }
  }

  // Mount one theme, or warn that a requested one is missing, or skip it.
  method Visit(
    host: Host, themes: set<string>, theme: string, seen: set<string>, rest: seq<string>,
    mounts: seq<ThemeMount>, warnings: seq<string>)
    returns (queue: seq<string>, moreMounts: seq<ThemeMount>, moreWarnings: seq<string>)
    requires Wanted(host, themes, theme)
    ensures rest <= queue && (!host.Shared(theme) ==> queue == rest)
    ensures forall t :: t in queue ==> t in rest || Wanted(host, themes, t)
    ensures forall parent :: host.Inherits()(theme, parent) ==> parent in seen + {theme} || parent in queue
    ensures moreMounts == if host.Shared(theme) then mounts + [ThemeMount(theme, host.dirs[theme])] else mounts
    ensures moreWarnings ==
      if theme in themes && theme !in host.dirs && !IsRuntimeTheme(theme) then warnings + [theme] else warnings
  {
    queue, moreMounts, moreWarnings := rest, mounts, warnings;
    if IsRuntimeTheme(theme) {
      return;
    }
    if theme !in host.dirs {
      if theme in themes {
        moreWarnings := warnings + [theme];
      }
      return;
    }
    queue := Enqueue(host, themes, theme, seen + {theme}, rest);
    moreMounts := mounts + [ThemeMount(theme, host.dirs[theme])];
  }
}
