/** Which file decides an agent: the places that project and user agent files may be in, most
    preferred first, and what the lookup and the visible list then say. */
module SubagentPlaces {
  import opened Wrappers
  import opened Sequences
  import opened Subagents

  /** The file `name.md` of the directory is there and parses as `def`. */
  ghost predicate HasFile(w: World, dir: Path, name: string, def: Definition) {
    dir in w.dirs && exists i :: 0 <= i < |w.dirs[dir]| && w.dirs[dir][i] == DirEntry(name + ".md", Some(def))
  }

  /** There is no such file in the directory, or it does not parse. */
  ghost predicate NoFile(w: World, dir: Path, name: string) {
    dir in w.dirs ==>
      forall i :: 0 <= i < |w.dirs[dir]| && w.dirs[dir][i].fileName == name + ".md" ==> w.dirs[dir][i].parsed == None
  }

  /** Neither agent directory of `at` offers the name. */
  ghost predicate SilentAt(w: World, at: Path, name: string) {
    NoFile(w, at + [".grok", "agents"], name) && NoFile(w, at + [".claude", "agents"], name)
  }

  /** `at` offers `def` under the name, `.grok` before `.claude`. */
  ghost predicate OffersAt(w: World, at: Path, name: string, def: Definition) {
    || HasFile(w, at + [".grok", "agents"], name, def)
    || (NoFile(w, at + [".grok", "agents"], name) && HasFile(w, at + [".claude", "agents"], name, def))
  }

  /** The nearest directory of the chain, working directory first, that offers the name. */
  ghost predicate NearestAt(w: World, name: string, i: nat, def: Definition) {
    && i < |w.chain| && OffersAt(w, w.chain[i], name, def)
    && forall j :: 0 <= j < i ==> SilentAt(w, w.chain[j], name)
  }

  ghost predicate NoProjectFile(w: World, name: string) {
    forall j :: 0 <= j < |w.chain| ==> SilentAt(w, w.chain[j], name)
  }

  /** The directories of user and bundled agent files: under the configured home, under `~/.grok`
      when that is another one, and under `~/.claude` for user files only. */
  ghost predicate UserPlace(w: World, k: nat, dir: Path, scope: Scope) {
    var apart := w.home.Some? && w.grokHome != Some(w.home.value + [".grok"]);
    || (k == 0 && scope == User && w.grokHome.Some? && dir == w.grokHome.value + ["agents"])
    || (k == 1 && scope == User && apart && dir == w.home.value + [".grok"] + ["agents"])
    || (k == 2 && scope == User && w.home.Some? && dir == w.home.value + [".claude", "agents"])
    || (k == 3 && scope == Bundled && w.grokHome.Some? && dir == w.grokHome.value + ["bundled", "agents"])
    || (k == 4 && scope == Bundled && apart && dir == w.home.value + [".grok"] + ["bundled", "agents"])
  }

  ghost predicate SilentPlace(w: World, k: nat, name: string) {
    forall dir, scope :: UserPlace(w, k, dir, scope) ==> NoFile(w, dir, name)
  }

  /** The first of these places that offers the name. */
  ghost predicate FirstPlace(w: World, name: string, k: nat, dir: Path, scope: Scope, def: Definition) {
    && UserPlace(w, k, dir, scope) && HasFile(w, dir, name, def)
    && forall j :: 0 <= j < k ==> SilentPlace(w, j, name)
  }

  ghost predicate NoUserFile(w: World, name: string) {
    forall j :: 0 <= j < 5 ==> SilentPlace(w, j, name)
  }

  // ---------------------------------------------------------------- one directory

  /** What one directory gives for a name. */
  function Look(w: World, dir: (Path, Scope), name: string): Option<Definition> {
    if dir.0 in w.dirs then InFile(w.dirs[dir.0], name, dir.1) else None
  }

  lemma {:induction false} FileFound(dir: Dir, name: string, scope: Scope, def: Definition)
    requires TidyDir(dir, name) && exists i :: 0 <= i < |dir| && dir[i] == DirEntry(name + ".md", Some(def))
    ensures InFile(dir, name, scope) == Some(def.(scope := scope))
  {
    var i :| 0 <= i < |dir| && dir[i] == DirEntry(name + ".md", Some(def));
    if i > 0 {
      assert dir[1..][i - 1] == dir[i] && dir[0].fileName != dir[i].fileName;
      FileFound(dir[1..], name, scope, def);
    }
  }

  lemma {:induction false} NoFileFound(dir: Dir, name: string, scope: Scope)
    requires forall i :: 0 <= i < |dir| && dir[i].fileName == name + ".md" ==> dir[i].parsed == None
    ensures InFile(dir, name, scope) == None
  {
    if dir != [] {
      NoFileFound(dir[1..], name, scope);
    }
  }

  lemma LookFinds(w: World, dir: (Path, Scope), name: string, def: Definition)
    ensures HasFile(w, dir.0, name, def) && TidyDir(w.dirs[dir.0], name) ==>
      Look(w, dir, name) == Some(def.(scope := dir.1))
    ensures NoFile(w, dir.0, name) ==> Look(w, dir, name) == None
  {
    if HasFile(w, dir.0, name, def) && TidyDir(w.dirs[dir.0], name) {
      FileFound(w.dirs[dir.0], name, dir.1, def);
    }
    if dir.0 in w.dirs && NoFile(w, dir.0, name) {
      NoFileFound(w.dirs[dir.0], name, dir.1);
    }
  }

  /** Discovery takes from a directory what its files `<something>.md` parse as, with the directory's
      scope, and nothing else. */
  lemma {:induction false} ListedFiles(dir: Dir, scope: Scope, def: Definition)
    ensures def in InDir(dir, scope) <==> exists stem, d ::
      stem != "" && DirEntry(stem + ".md", Some(d)) in dir && def == d.(scope := scope)
  {
    if dir != [] {
      var front, last := dir[..|dir| - 1], dir[|dir| - 1];
      ListedFiles(front, scope, def);
      assert dir == front + [last];
      ListedFile(last);
      hide IsMarkdown;
    }
  }

  lemma ListedFile(e: DirEntry)
    ensures IsMarkdown(e.fileName) && e.parsed.Some? <==>
      exists stem, d :: stem != "" && DirEntry(stem + ".md", Some(d)) == e
  {
    if IsMarkdown(e.fileName) && e.parsed.Some? {
      var stem := e.fileName[..|e.fileName| - 3];
      assert stem + ".md" == e.fileName;
      assert DirEntry(stem + ".md", Some(e.parsed.value)) == e;
    }
    forall stem, d | stem != "" && DirEntry(stem + ".md", Some(d)) == e
      ensures IsMarkdown(e.fileName)
    {
      assert (stem + ".md")[|stem|..] == ".md";
    }
  }

  // ---------------------------------------------------------------- lists of directories

  lemma {:induction false} InDirsConcat(w: World, a: seq<(Path, Scope)>, b: seq<(Path, Scope)>, name: string)
    ensures InDirs(w, a + b, name) == if InDirs(w, a, name).Some? then InDirs(w, a, name) else InDirs(w, b, name)
    decreases |a|
  {
    if a == [] {
      assert a + b == b;
    } else {
      assert (a + b)[1..] == a[1..] + b;
      InDirsConcat(w, a[1..], b, name);
    }
  }

  lemma {:induction false} ScopedConcat(a: seq<Path>, b: seq<Path>, scope: Scope)
    ensures Scoped(a + b, scope) == Scoped(a, scope) + Scoped(b, scope)
    decreases |a|
  {
    if a == [] {
      assert a + b == b;
    } else {
      assert (a + b)[1..] == a[1..] + b;
      ScopedConcat(a[1..], b, scope);
    }
  }

  lemma InDirsOne(w: World, dir: (Path, Scope), name: string)
    ensures InDirs(w, [dir], name) == Look(w, dir, name)
  {
    assert [dir][1..] == [];
  }

  /** One existing directory, or none. */
  function Here(w: World, dir: Path): seq<(Path, Scope)> {
    if dir in w.dirs then [(dir, Project)] else []
  }

  lemma ExistingSteps(w: World, a: Path, b: Path)
    ensures Scoped(Existing(w, [a, b]), Project) == Here(w, a) + Here(w, b)
  {
    assert [a, b][1..] == [b] && [b][1..] == [] && [a][1..] == [];
    var here := if a in w.dirs then [a] else [];
    var there := if b in w.dirs then [b] else [];
    assert Existing(w, [b]) == there;
    assert Existing(w, [a, b]) == here + there;
    ScopedConcat(here, there, Project);
  }

  lemma HereLooks(w: World, dir: Path, name: string)
    ensures InDirs(w, Here(w, dir), name) == Look(w, (dir, Project), name)
  {
    InDirsOne(w, (dir, Project), name);
  }

  /** The first of two answers. */
  function Else(a: Option<Definition>, b: Option<Definition>): Option<Definition> {
    if a.Some? then a else b
  }

  lemma ProjectStep(w: World, chain: seq<Path>, name: string)
    requires chain != []
    ensures
      var a, b := chain[0] + [".grok", "agents"], chain[0] + [".claude", "agents"];
      var dirs, later := Scoped(ProjectDirs(w, chain), Project), Scoped(ProjectDirs(w, chain[1..]), Project);
      && dirs == Here(w, a) + Here(w, b) + later
      && InDirs(w, dirs, name)
         == Else(Look(w, (a, Project), name), Else(Look(w, (b, Project), name), InDirs(w, later, name)))
  {
    var a, b := chain[0] + [".grok", "agents"], chain[0] + [".claude", "agents"];
    var later := Scoped(ProjectDirs(w, chain[1..]), Project);
    ScopedConcat(Existing(w, [a, b]), ProjectDirs(w, chain[1..]), Project);
    ExistingSteps(w, a, b);
    InDirsConcat(w, Here(w, a) + Here(w, b), later, name);
    InDirsConcat(w, Here(w, a), Here(w, b), name);
    HereLooks(w, a, name);
    HereLooks(w, b, name);
  }

  lemma TidyStep(w: World, chain: seq<Path>, name: string)
    requires chain != [] && TidyIn(w, Scoped(ProjectDirs(w, chain), Project), name)
    ensures TidyIn(w, Scoped(ProjectDirs(w, chain[1..]), Project), name)
    ensures
      var a, b := chain[0] + [".grok", "agents"], chain[0] + [".claude", "agents"];
      && (a in w.dirs ==> TidyDir(w.dirs[a], name)) && (b in w.dirs ==> TidyDir(w.dirs[b], name))
  {
    ProjectStep(w, chain, name);
    var a, b := chain[0] + [".grok", "agents"], chain[0] + [".claude", "agents"];
    hide TidyDir, ProjectDirs, Scoped, InDirs, TidyIn;
    TidyConcat(w, Here(w, a) + Here(w, b), Scoped(ProjectDirs(w, chain[1..]), Project), name);
    TidyConcat(w, Here(w, a), Here(w, b), name);
    if a in w.dirs {
      TidyHere(w, a, name);
    }
    if b in w.dirs {
      TidyHere(w, b, name);
    }
  }

  lemma TidyHere(w: World, dir: Path, name: string)
    requires TidyIn(w, Here(w, dir), name) && dir in w.dirs
    ensures TidyDir(w.dirs[dir], name)
  {
    hide TidyDir;
    assert Here(w, dir)[0].0 == dir;
  }

  /** Along a chain of directories, the nearest one that offers the name gives the project file. */
  lemma {:induction false} NearestFound(w: World, chain: seq<Path>, name: string, i: nat, def: Definition)
    requires TidyIn(w, Scoped(ProjectDirs(w, chain), Project), name)
    requires i < |chain| && OffersAt(w, chain[i], name, def)
    requires forall j :: 0 <= j < i ==> SilentAt(w, chain[j], name)
    ensures InDirs(w, Scoped(ProjectDirs(w, chain), Project), name) == Some(def.(scope := Project))
    decreases i
  {
    ProjectStep(w, chain, name);
    TidyStep(w, chain, name);
    LookFinds(w, (chain[0] + [".grok", "agents"], Project), name, def);
    LookFinds(w, (chain[0] + [".claude", "agents"], Project), name, def);
    hide TidyIn, TidyDir, Look, HasFile, NoFile, ProjectDirs, Here, InDirs;
    if i > 0 {
      NearestFound(w, chain[1..], name, i - 1, def);
    }
  }

  lemma {:induction false} NothingFound(w: World, chain: seq<Path>, name: string)
    requires forall j :: 0 <= j < |chain| ==> SilentAt(w, chain[j], name)
    ensures InDirs(w, Scoped(ProjectDirs(w, chain), Project), name) == None
  {
    if chain != [] {
      ProjectStep(w, chain, name);
      NoneAt(w, (chain[0] + [".grok", "agents"], Project), name);
      NoneAt(w, (chain[0] + [".claude", "agents"], Project), name);
      hide Look, NoFile, ProjectDirs, Here, InDirs;
      NothingFound(w, chain[1..], name);
    }
  }

  lemma NoneAt(w: World, dir: (Path, Scope), name: string)
    requires NoFile(w, dir.0, name)
    ensures Look(w, dir, name) == None
  {
    if dir.0 in w.dirs {
      NoFileFound(w.dirs[dir.0], name, dir.1);
    }
  }

  // ---------------------------------------------------------------- user directories

  function PlaceDirs(w: World, k: nat): seq<(Path, Scope)> {
    if k == 0 then Under(w.grokHome, ["agents"], User)
    else if k == 1 then Under(LegacyGrok(w), ["agents"], User)
    else if k == 2 then Under(w.home, [".claude", "agents"], User)
    else if k == 3 then Under(w.grokHome, ["bundled", "agents"], Bundled)
    else if k == 4 then Under(LegacyGrok(w), ["bundled", "agents"], Bundled)
    else []
  }

  lemma PlacesAre(w: World, k: nat, dir: Path, scope: Scope)
    ensures UserPlace(w, k, dir, scope) <==> PlaceDirs(w, k) == [(dir, scope)]
    ensures PlaceDirs(w, k) == [] || |PlaceDirs(w, k)| == 1
  {
  }

  lemma PlacesLook(w: World, name: string)
    ensures InDirs(w, UserDirs(w), name)
      == Else(InDirs(w, PlaceDirs(w, 0), name),
           Else(InDirs(w, PlaceDirs(w, 1), name),
             Else(InDirs(w, PlaceDirs(w, 2), name),
               Else(InDirs(w, PlaceDirs(w, 3), name), InDirs(w, PlaceDirs(w, 4), name)))))
  {
    var p0, p1, p2, p3, p4 := PlaceDirs(w, 0), PlaceDirs(w, 1), PlaceDirs(w, 2), PlaceDirs(w, 3), PlaceDirs(w, 4);
    assert UserDirs(w) == p0 + p1 + p2 + p3 + p4;
    hide InDirs, PlaceDirs;
    InDirsConcat(w, p0 + p1 + p2 + p3, p4, name);
    InDirsConcat(w, p0 + p1 + p2, p3, name);
    InDirsConcat(w, p0 + p1, p2, name);
    InDirsConcat(w, p0, p1, name);
  }

  lemma PlaceGives(w: World, k: nat, name: string)
    requires SilentPlace(w, k, name)
    ensures InDirs(w, PlaceDirs(w, k), name) == None
  {
    if PlaceDirs(w, k) != [] {
      var (dir, scope) := PlaceDirs(w, k)[0];
      PlacesAre(w, k, dir, scope);
      NoneAt(w, (dir, scope), name);
      InDirsOne(w, (dir, scope), name);
    }
  }

  lemma TidyPlace(w: World, k: nat, dir: Path, scope: Scope, name: string)
    requires TidyIn(w, UserDirs(w), name) && UserPlace(w, k, dir, scope) && dir in w.dirs
    ensures TidyDir(w.dirs[dir], name)
  {
    hide TidyDir;
    PlacesAre(w, k, dir, scope);
    assert (dir, scope) in PlaceDirs(w, k);
    assert (dir, scope) in UserDirs(w);
  }

  /** The first user place that offers the name gives the file, with the scope of the place. */
  lemma FirstPlaceFound(w: World, name: string, k: nat, dir: Path, scope: Scope, def: Definition)
    requires TidyIn(w, UserDirs(w), name) && FirstPlace(w, name, k, dir, scope, def)
    ensures InDirs(w, UserDirs(w), name) == Some(def.(scope := scope))
  {
    PlacesLook(w, name);
    PlacesAre(w, k, dir, scope);
    TidyPlace(w, k, dir, scope, name);
    LookFinds(w, (dir, scope), name, def);
    InDirsOne(w, (dir, scope), name);
    hide TidyIn, TidyDir, Look, HasFile, NoFile, UserDirs, InDirs, PlaceDirs, SilentPlace;
    forall j: nat | j < k {
      PlaceGives(w, j, name);
    }
    assert k < 5;
  }

  lemma NoUserFileFound(w: World, name: string)
    requires NoUserFile(w, name)
    ensures InDirs(w, UserDirs(w), name) == None
  {
    PlacesLook(w, name);
    hide UserDirs, InDirs, PlaceDirs, SilentPlace;
    forall j: nat | j < 5 {
      PlaceGives(w, j, name);
    }
  }

  // ---------------------------------------------------------------- what is called

  /** A name that a project file offers is called from the nearest one. */
  lemma NearestIsCalled(w: World, name: string, i: nat, def: Definition)
    requires Tidy(w, name) && NearestAt(w, name, i, def)
    ensures ByNameInCwd(w, name) == Some(def.(scope := Project))
  {
    TidyInBoth(w, name);
    hide TidyIn, InDirs, OffersAt, SilentAt;
    NearestFound(w, w.chain, name, i, def);
  }

  /** Otherwise a built-in agent of that name is called, or else the first user place that offers the
      name, or else nothing. */
  lemma PlaceIsCalled(w: World, name: string)
    requires Tidy(w, name) && NoProjectFile(w, name)
    ensures FromName(name).Some? ==>
      ByNameInCwd(w, name) == Some(Definition(name, w.describe(FromName(name).value), BuiltIn, None, None))
    ensures FromName(name).None? ==>
      forall k, dir, scope, def :: FirstPlace(w, name, k, dir, scope, def) ==>
        ByNameInCwd(w, name) == Some(def.(scope := scope))
    ensures FromName(name).None? && NoUserFile(w, name) ==> ByNameInCwd(w, name) == None
  {
    TidyInBoth(w, name);
    NothingFound(w, w.chain, name);
    FromNameNames(name);
    hide TidyIn, InDirs, SilentAt, NoUserFile, FirstPlace, FromName, NameOf;
    forall k, dir, scope, def | FirstPlace(w, name, k, dir, scope, def)
      ensures InDirs(w, UserDirs(w), name) == Some(def.(scope := scope))
    {
      FirstPlaceFound(w, name, k, dir, scope, def);
    }
    if NoUserFile(w, name) {
      NoUserFileFound(w, name);
    }
  }

  // ---------------------------------------------------------------- what is listed

  /** The built-in agents that can be launched by name. */
  function Launchable(name: string): Option<Builtin> {
    if name == "general-purpose" then Some(GeneralPurpose)
    else if name == "explore" then Some(Explore)
    else if name == "plan" then Some(Plan)
    else None
  }

  /** The entry of a file's definition: what it says, where it comes from, and what it shadows. */
  ghost predicate ListsFile(e: SubagentEntry, def: Definition) {
    && e.name == def.name && e.description == def.description && e.source == UserDefined(def.scope)
    && e.shadowsBuiltin == Launchable(def.name)
    && ConfiguredBy(def, e.configSource)
  }

  /** The visible list has one entry for `name`, that of `def`, unless the name is switched off. */
  ghost predicate Lists(w: World, toggle: map<string, bool>, name: string, def: Definition) {
    var on := name in toggle ==> toggle[name];
    && def.name == name
    && (on <==> exists e :: e in AllSubagents(w, toggle) && e.name == name)
    && (forall e :: e in AllSubagents(w, toggle) && e.name == name ==> ListsFile(e, def))
  }

  /** It has the built-in agent's own entry for `name`, or none if there is none to launch. */
  ghost predicate ListsBuiltin(w: World, toggle: map<string, bool>, name: string) {
    var on := name in toggle ==> toggle[name];
    && (on && Launchable(name).Some? <==> exists e :: e in AllSubagents(w, toggle) && e.name == name)
    && (forall e :: e in AllSubagents(w, toggle) && e.name == name ==>
          Launchable(name).Some? &&
          e == SubagentEntry(name, w.describe(Launchable(name).value), FromBuiltin(Launchable(name).value),
                             None, BuiltinConfig))
  }

  lemma LaunchableNames(name: string)
    ensures Launchable(name).Some? <==> IsLaunchable(name)
    ensures IsLaunchable(name) ==> Launchable(name) == Some(LaunchableOf(name)) && NameOf(LaunchableOf(name)) == name
    ensures IsLaunchable(name) ==> FromName(name) == Launchable(name)
  {
    LaunchablesAreBuiltin(name);
    hide FromName;
  }

  lemma ExpectedFile(w: World, def: Definition, e: SubagentEntry)
    requires def.scope == Project || (def.scope != BuiltIn && Launchable(def.name).None?)
    ensures ExpectedOf(w, Kept(Some(def)), def.name).Some?
    ensures ExpectedOf(w, Kept(Some(def)), def.name) == Some(e) ==> ListsFile(e, def)
  {
    LaunchableNames(def.name);
    hide FromName, IsLaunchable, LaunchableOf, Launchable, NameOf;
  }

  lemma ExpectedBuiltin(w: World, found: Option<Definition>, name: string)
    requires found.Some? ==> found.value.name == name && found.value.scope != Project && Launchable(name).Some?
    ensures ExpectedOf(w, Kept(found), name)
      == if Launchable(name).None? then None
         else Some(SubagentEntry(name, w.describe(Launchable(name).value), FromBuiltin(Launchable(name).value),
                                 None, BuiltinConfig))
  {
    LaunchableNames(name);
    hide FromName, IsLaunchable, LaunchableOf, Launchable, NameOf;
  }

  lemma FoundIsListed(w: World, toggle: map<string, bool>, name: string, def: Definition)
    requires FirstNamed(Discovered(w), name) == Some(def) && def.name == name
    requires def.scope == Project || (def.scope != BuiltIn && Launchable(name).None?)
    ensures Lists(w, toggle, name, def)
  {
    VisibleAsExpected(w, toggle, name);
    hide ExpectedOf, Kept, Discovered, AllSubagents, FirstNamed, Launchable, ListsFile, DistinctEntries;
    ExpectedFile(w, def, UserEntry(def, None));
    forall e | e in AllSubagents(w, toggle) && e.name == name
      ensures ListsFile(e, def)
    {
      ExpectedFile(w, def, e);
    }
  }

  /** Discovery reads the same files that lookup reads, in the same order. */
  lemma DiscoveredAsLooked(w: World, name: string)
    requires Tidy(w, name) && name != ""
    ensures FirstNamed(Discovered(w), name)
      == Else(InDirs(w, Scoped(ProjectDirs(w, w.chain), Project), name), InDirs(w, UserDirs(w), name))
    ensures
      var found := FirstNamed(Discovered(w), name);
      found.Some? ==>
        && found.value.name == name
        && (InDirs(w, Scoped(ProjectDirs(w, w.chain), Project), name).None? ==> found.value.scope != Project)
  {
    TidyInBoth(w, name);
    InDirsIsFirstCandidate(w, Scoped(ProjectDirs(w, w.chain), Project), name);
    InDirsIsFirstCandidate(w, UserDirs(w), name);
    FoundScopes(w, name);
  }

  /** A name that a project file offers is listed with the nearest one: the one that is called. */
  lemma NearestIsListed(w: World, toggle: map<string, bool>, name: string, i: nat, def: Definition)
    requires Tidy(w, name) && name != "" && NearestAt(w, name, i, def)
    ensures Lists(w, toggle, name, def.(scope := Project))
  {
    TidyInBoth(w, name);
    DiscoveredAsLooked(w, name);
    hide TidyIn, InDirs, OffersAt, SilentAt, Discovered, FirstNamed, Lists;
    NearestFound(w, w.chain, name, i, def);
    FoundIsListed(w, toggle, name, def.(scope := Project));
  }

  /** Otherwise a launchable built-in agent is listed as itself, and any other name with the first user
      place that offers it, or not at all. */
  lemma PlaceIsListed(w: World, toggle: map<string, bool>, name: string)
    requires Tidy(w, name) && name != "" && NoProjectFile(w, name)
    ensures Launchable(name).Some? || NoUserFile(w, name) ==> ListsBuiltin(w, toggle, name)
    ensures Launchable(name).None? ==>
      forall k, dir, scope, def :: FirstPlace(w, name, k, dir, scope, def) ==>
        Lists(w, toggle, name, def.(scope := scope))
  {
    TidyInBoth(w, name);
    DiscoveredAsLooked(w, name);
    NothingFound(w, w.chain, name);
    hide TidyIn, InDirs, SilentAt, NoUserFile, Discovered, FirstNamed, Lists, ListsBuiltin, Launchable;
    if Launchable(name).Some? || NoUserFile(w, name) {
      if NoUserFile(w, name) {
        NoUserFileFound(w, name);
      }
      BuiltinIsListed(w, toggle, name);
    }
    forall k, dir, scope, def | Launchable(name).None? && FirstPlace(w, name, k, dir, scope, def)
      ensures Lists(w, toggle, name, def.(scope := scope))
    {
      FirstPlaceFound(w, name, k, dir, scope, def);
      FoundIsListed(w, toggle, name, def.(scope := scope));
    }
  }

  lemma BuiltinIsListed(w: World, toggle: map<string, bool>, name: string)
    requires
      var found := FirstNamed(Discovered(w), name);
      found.Some? ==> found.value.name == name && found.value.scope != Project && Launchable(name).Some?
    ensures ListsBuiltin(w, toggle, name)
  {
    VisibleAsExpected(w, toggle, name);
    ExpectedBuiltin(w, FirstNamed(Discovered(w), name), name);
    hide ExpectedOf, Kept, Discovered, AllSubagents, FirstNamed, Launchable, DistinctEntries;
  }

  // ---------------------------------------------------------------- what the merge keeps

  /** A discovered definition that may be listed: a project file always, a user or bundled one unless it
      is named like a launchable built-in agent. */
  predicate MayJoin(def: Definition) {
    def.scope == Project || ((def.scope == User || def.scope == Bundled) && Launchable(def.name).None?)
  }

  lemma JoinsUnlessSkipped(def: Definition)
    ensures MayJoin(def) <==> !Skipped(def)
  {
    LaunchableNames(def.name);
    hide FromName, IsLaunchable, Launchable;
  }

  predicate OutRanks(a: Scope, b: Scope) {
    (a == Project && b != Project) || (a == User && b != Project && b != User)
  }

  /** Of several definitions with one name, whatever list they come in, the merge keeps a project file
      before a user one before a bundled one, and the earliest of those. */
  lemma {:induction false} BestIsHighest(discovered: seq<Definition>, name: string) returns (k: nat)
    ensures Best(discovered, name).Some? <==>
      exists j :: 0 <= j < |discovered| && discovered[j].name == name && MayJoin(discovered[j])
    ensures Best(discovered, name).Some? ==>
      k < |discovered| && discovered[k] == Best(discovered, name).value && discovered[k].name == name
      && MayJoin(discovered[k])
      && forall j :: 0 <= j < |discovered| && discovered[j].name == name && MayJoin(discovered[j]) ==>
           if j < k then OutRanks(discovered[k].scope, discovered[j].scope)
           else !OutRanks(discovered[j].scope, discovered[k].scope)
  {
    k := 0;
    if discovered != [] {
      var n := |discovered| - 1;
      var front, last := discovered[..n], discovered[n];
      k := BestIsHighest(front, name);
      JoinsUnlessSkipped(last);
      hide Skipped, Launchable;
      assert forall j :: 0 <= j < n ==> discovered[j] == front[j];
      if Best(discovered, name) != Best(front, name) {
        k := n;
      }
    }
  }

  /** The list starts with the launchable built-in agents' names, and the other names follow in the order
      discovery found them. */
  ghost predicate Ordered(entries: seq<SubagentEntry>, discovered: seq<Definition>, picks: seq<int>) {
    BuiltinsFirst(entries) && Appended(discovered, picks) && NamesFollow(entries, discovered, picks)
  }

  /** The positions of the discovered definitions that are appended to the built-in entries. */
  ghost predicate Appended(discovered: seq<Definition>, picks: seq<int>) {
    && Increasing(picks)
    && forall i :: i in picks <==>
         0 <= i < |discovered| && MayJoin(discovered[i]) && Launchable(discovered[i].name).None?
  }

  ghost predicate NamesFollow(entries: seq<SubagentEntry>, discovered: seq<Definition>, picks: seq<int>) {
    && |entries| == 3 + |picks|
    && forall k :: 0 <= k < |picks| ==>
         0 <= picks[k] < |discovered| && entries[3 + k].name == discovered[picks[k]].name
  }

  ghost predicate BuiltinsFirst(entries: seq<SubagentEntry>) {
    && |entries| >= 3
    && entries[0].name == "general-purpose" && entries[1].name == "explore" && entries[2].name == "plan"
  }

  lemma {:induction false} MergedInOrder(w: World, discovered: seq<Definition>) returns (picks: seq<int>)
    requires DistinctNames(discovered)
    ensures Ordered(MergedEntries(w, discovered), discovered, picks)
  {
    picks := [];
    if discovered != [] {
      var front, last := discovered[..|discovered| - 1], discovered[|discovered| - 1];
      picks := MergedInOrder(w, front);
      assert discovered == front + [last];
      assert MergedEntries(w, discovered) == MergeOne(MergedEntries(w, front), last);
      hide MergedEntries, MergeOne, MayJoin, Launchable;
      picks := MergeOneInOrder(MergedEntries(w, front), front, last, picks);
    }
  }

  lemma MergeOneInOrder(entries: seq<SubagentEntry>, discovered: seq<Definition>, def: Definition, picks: seq<int>)
    returns (more: seq<int>)
    requires Ordered(entries, discovered, picks) && DistinctNames(discovered + [def])
    ensures Ordered(MergeOne(entries, def), discovered + [def], more)
  {
    JoinsUnlessSkipped(def);
    PositionTells(entries, discovered, def, picks);
    MergeOneNames(entries, def);
    hide *;
    more := OneMoreInOrder(entries, MergeOne(entries, def), discovered, def, picks);
  }

  lemma OneMoreInOrder(entries: seq<SubagentEntry>, after: seq<SubagentEntry>, discovered: seq<Definition>,
                       def: Definition, picks: seq<int>) returns (more: seq<int>)
    requires Ordered(entries, discovered, picks)
    requires forall i :: 0 <= i < |entries| ==> i < |after| && after[i].name == entries[i].name
    requires
      if MayJoin(def) && Launchable(def.name).None? then
        |after| == |entries| + 1 && after[|entries|].name == def.name
      else |after| == |entries|
    ensures Ordered(after, discovered + [def], more)
  {
    hide MayJoin, Launchable, Appended;
    more := picks + if MayJoin(def) && Launchable(def.name).None? then [|discovered|] else [];
    OneMoreName(entries, after, discovered, def, picks, more);
    OneMoreAppended(discovered, def, picks, more);
    assert BuiltinsFirst(after);
    hide *;
  }

  lemma OneMoreName(entries: seq<SubagentEntry>, after: seq<SubagentEntry>, discovered: seq<Definition>,
                    def: Definition, picks: seq<int>, more: seq<int>)
    requires NamesFollow(entries, discovered, picks)
    requires |after| == 3 + |more| >= |entries|
    requires forall i :: 0 <= i < |entries| ==> after[i].name == entries[i].name
    requires
      || more == picks
      || (more == picks + [|discovered|] && |after| > |entries| && after[|entries|].name == def.name)
    ensures NamesFollow(after, discovered + [def], more)
  {
    forall k | 0 <= k < |more|
      ensures 0 <= more[k] < |discovered| + 1 && after[3 + k].name == (discovered + [def])[more[k]].name
    {
      if k < |picks| {
        assert entries[3 + k].name == discovered[picks[k]].name;
      }
    }
  }

  lemma OneMoreAppended(discovered: seq<Definition>, def: Definition, picks: seq<int>, more: seq<int>)
    requires Appended(discovered, picks) && forall k :: 0 <= k < |picks| ==> picks[k] < |discovered|
    requires more == picks + if MayJoin(def) && Launchable(def.name).None? then [|discovered|] else []
    ensures Appended(discovered + [def], more)
  {
    MorePicks(picks, |discovered|, more);
    hide MayJoin, Launchable, Increasing;
    assert forall i :: 0 <= i < |discovered| ==> (discovered + [def])[i] == discovered[i];
  }

  lemma MergeOneNames(entries: seq<SubagentEntry>, def: Definition)
    ensures
      var after := MergeOne(entries, def);
      && (forall i :: 0 <= i < |entries| ==> i < |after| && after[i].name == entries[i].name)
      && (if !Skipped(def) && Position(entries, def.name).None? then
            |after| == |entries| + 1 && after[|entries|].name == def.name
          else |after| == |entries|)
  {
    PositionFinds(entries, def.name);
    if !Skipped(def) {
      MergeOneAt(entries, def);
    }
    hide Skipped, Position, Replaces;
  }

  /** The merge finds a name among the entries exactly if it is launchable. */
  lemma PositionTells(entries: seq<SubagentEntry>, discovered: seq<Definition>, def: Definition, picks: seq<int>)
    requires Ordered(entries, discovered, picks) && DistinctNames(discovered + [def])
    ensures Position(entries, def.name).Some? <==> Launchable(def.name).Some?
  {
    PositionFinds(entries, def.name);
    hide Position, MayJoin;
    if Launchable(def.name).None? {
      forall i | 0 <= i < |entries|
        ensures entries[i].name != def.name
      {
        if i >= 3 {
          assert entries[3 + (i - 3)].name == (discovered + [def])[picks[i - 3]].name;
          assert (discovered + [def])[|discovered|] == def;
        }
      }
    } else {
      assert entries[0] in entries && entries[1] in entries && entries[2] in entries;
    }
  }

  // ---------------------------------------------------------------- built-in names

  /** Every built-in agent is found by its own name, and by no other. */
  lemma EveryBuiltinFound(b: Builtin, name: string)
    ensures FromName(name) == Some(b) <==> name == NameOf(b)
  {
    FromNameNames(name);
    if name == NameOf(b) {
      BuiltinListed(b);
      forall i | 0 <= i < |ALL| && ALL[i] != b
        ensures NameOf(ALL[i]) != name
      {
        NamesDiffer(ALL[i], b);
      }
      FindNamedOnly(ALL, b);
    }
  }

  lemma BuiltinListed(b: Builtin)
    ensures b in ALL
  {
    assert ALL[0] == GrokBuild && ALL[1] == GrokBuildConcise && ALL[2] == GrokBuildPlan
      && ALL[3] == GrokBuildPlanNoSubagents && ALL[4] == GrokBuildAskUser && ALL[5] == Codex
      && ALL[6] == Opencode && ALL[7] == GeneralPurpose && ALL[8] == Explore && ALL[9] == Plan
      && ALL[10] == BrowserUse && ALL[11] == GrokBuildOrchestrator;
  }

  lemma NamesDiffer(a: Builtin, b: Builtin)
    requires a != b
    ensures NameOf(a) != NameOf(b)
  {
    if |NameOf(a)| == |NameOf(b)| {
      assert NameOf(a)[1] != NameOf(b)[1];
    }
  }

  lemma {:induction false} FindNamedOnly(bs: seq<Builtin>, b: Builtin)
    requires b in bs && forall i :: 0 <= i < |bs| && bs[i] != b ==> NameOf(bs[i]) != NameOf(b)
    ensures FindNamed(bs, NameOf(b)) == Some(b)
  {
    hide NameOf;
    if bs[0] != b {
      FindNamedOnly(bs[1..], b);
    }
  }
}
