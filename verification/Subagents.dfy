/** The list of visible subagents and the separate lookup by name, over the same directories. */
module Subagents {
  import opened Sequences
  import opened Wrappers

  type Path = seq<string>

  datatype Scope = Project | User | Bundled | BuiltIn

  datatype Definition = Definition(
    name: string,
    description: string,
    scope: Scope,
    sourcePath: Option<string>,
    pluginName: Option<string>)

  /** A directory entry; `parsed` is what reading it as an agent file gives, `None` for a file
      that does not parse or is not a regular file. */
  datatype DirEntry = DirEntry(fileName: string, parsed: Option<Definition>)

  type Dir = seq<DirEntry>

  datatype World = World(
    dirs: map<Path, Dir>,
    chain: seq<Path>,
    home: Option<Path>,
    grokHome: Option<Path>,
    describe: Builtin -> string)

  // ---------------------------------------------------------------- built-in agents

  datatype Builtin =
    | GrokBuild | GrokBuildConcise | GrokBuildPlan | GrokBuildPlanNoSubagents | GrokBuildAskUser
    | Codex | Opencode | GeneralPurpose | Explore | Plan | BrowserUse | GrokBuildOrchestrator

  function NameOf(b: Builtin): string {
    match b
    case GrokBuild => "grok-build"
    case GrokBuildConcise => "grok-build-concise"
    case GrokBuildPlan => "grok-build-plan"
    case GrokBuildPlanNoSubagents => "grok-build-plan-no-subagents"
    case GrokBuildAskUser => "grok-build-ask-user"
    case Codex => "codex"
    case Opencode => "opencode"
    case GeneralPurpose => "general-purpose"
    case Explore => "explore"
    case Plan => "plan"
    case BrowserUse => "browser-use"
    case GrokBuildOrchestrator => "grok-build-orchestrator"
  }

  const ALL: seq<Builtin> := [
    GrokBuild, GrokBuildConcise, GrokBuildPlan, GrokBuildPlanNoSubagents, GrokBuildAskUser,
    Codex, Opencode, GeneralPurpose, Explore, Plan, BrowserUse, GrokBuildOrchestrator]

  function FindNamed(bs: seq<Builtin>, name: string): Option<Builtin> {
    if bs == [] then None
    else if NameOf(bs[0]) == name then Some(bs[0])
    else FindNamed(bs[1..], name)
  }

  function FromName(name: string): Option<Builtin> {
    FindNamed(ALL, name)
  }

  predicate IsLaunchable(name: string) {
    name == NameOf(GeneralPurpose) || name == NameOf(Explore) || name == NameOf(Plan)
  }

  function DefinitionOf(w: World, b: Builtin): Definition {
    Definition(NameOf(b), w.describe(b), BuiltIn, None, None)
  }

  // ---------------------------------------------------------------- directories

  function Existing(w: World, dirs: seq<Path>): seq<Path> {
    if dirs == [] then []
    else if dirs[0] in w.dirs then [dirs[0]] + Existing(w, dirs[1..])
    else Existing(w, dirs[1..])
  }

  function ProjectDirs(w: World, chain: seq<Path>): seq<Path> {
    if chain == [] then []
    else
      Existing(w, [chain[0] + [".grok", "agents"], chain[0] + [".claude", "agents"]])
      + ProjectDirs(w, chain[1..])
  }

  /** `~/.grok`, when that is not the configured home itself. */
  function LegacyGrok(w: World): Option<Path> {
    if w.home.Some? && w.grokHome != Some(w.home.value + [".grok"]) then Some(w.home.value + [".grok"]) else None
  }

  function Under(root: Option<Path>, sub: Path, scope: Scope): seq<(Path, Scope)> {
    if root.Some? then [(root.value + sub, scope)] else []
  }

  method UserAgentDirs(w: World) returns (dirs: seq<(Path, Scope)>)
    ensures dirs == UserDirs(w)
  {
    var legacyGrok := LegacyGrok(w);
    dirs := [];
    if w.grokHome.Some? {
      dirs := dirs + [(w.grokHome.value + ["agents"], User)];
    }
    if legacyGrok.Some? {
      dirs := dirs + [(legacyGrok.value + ["agents"], User)];
    }
    if w.home.Some? {
      dirs := dirs + [(w.home.value + [".claude", "agents"], User)];
    }
    if w.grokHome.Some? {
      dirs := dirs + [(w.grokHome.value + ["bundled", "agents"], Bundled)];
    }
    if legacyGrok.Some? {
      dirs := dirs + [(legacyGrok.value + ["bundled", "agents"], Bundled)];
    }
  }

  function UserDirs(w: World): seq<(Path, Scope)> {
    Under(w.grokHome, ["agents"], User)
    + Under(LegacyGrok(w), ["agents"], User)
    + Under(w.home, [".claude", "agents"], User)
    + Under(w.grokHome, ["bundled", "agents"], Bundled)
    + Under(LegacyGrok(w), ["bundled", "agents"], Bundled)
  }

  function Scoped(dirs: seq<Path>, scope: Scope): seq<(Path, Scope)> {
    if dirs == [] then [] else [(dirs[0], scope)] + Scoped(dirs[1..], scope)
  }

  /** All directories discovery reads, highest priority first. */
  function SearchDirs(w: World): seq<(Path, Scope)> {
    Scoped(ProjectDirs(w, w.chain), Project) + UserDirs(w)
  }

  // ---------------------------------------------------------------- discovery

  predicate IsMarkdown(fileName: string) {
    |fileName| > 3 && fileName[|fileName| - 3..] == ".md"
  }

  /** The definitions in one directory's files, in listing order. */
  function InDir(dir: Dir, scope: Scope): seq<Definition> {
    if dir == [] then []
    else
      var n := |dir| - 1;
      if IsMarkdown(dir[n].fileName) && dir[n].parsed.Some? then
        InDir(dir[..n], scope) + [dir[n].parsed.value.(scope := scope)]
      else InDir(dir[..n], scope)
  }

  function Candidates(w: World, dirs: seq<(Path, Scope)>): seq<Definition> {
    if dirs == [] then []
    else
      var n := |dirs| - 1;
      if dirs[n].0 in w.dirs then Candidates(w, dirs[..n]) + InDir(w.dirs[dirs[n].0], dirs[n].1)
      else Candidates(w, dirs[..n])
  }

  function ByName(): Definition -> string {
    (d: Definition) => d.name
  }

  function Names(defs: seq<Definition>): (names: set<string>)
    ensures names == set d | d in defs :: d.name
  {
    KeysOf(ByName(), defs)
  }

  function FirstByName(defs: seq<Definition>): seq<Definition> {
    FirstBy(ByName(), defs)
  }

  function Discovered(w: World): seq<Definition> {
    FirstByName(Candidates(w, SearchDirs(w)))
  }

  lemma OneMore(defs: seq<Definition>, def: Definition)
    ensures Names(defs + [def]) == Names(defs) + {def.name}
    ensures FirstByName(defs + [def])
         == if def.name in Names(defs) then FirstByName(defs) else FirstByName(defs) + [def]
  {
    OneMoreKey(ByName(), defs, def);
  }

  method LoadDefinitionsFromDir(dir: Dir, scope: Scope, definitions: seq<Definition>, seenNames: set<string>,
                                ghost before: seq<Definition>)
    returns (definitions': seq<Definition>, seenNames': set<string>)
    requires definitions == FirstByName(before) && seenNames == Names(before)
    ensures definitions' == FirstByName(before + InDir(dir, scope))
    ensures seenNames' == Names(before + InDir(dir, scope))
  {
    hide FirstByName, Names, IsMarkdown;
    definitions', seenNames' := definitions, seenNames;
    assert before + InDir(dir[..0], scope) == before;
    for i := 0 to |dir|
      invariant definitions' == FirstByName(before + InDir(dir[..i], scope))
      invariant seenNames' == Names(before + InDir(dir[..i], scope))
    {
      assert dir[..i + 1][..i] == dir[..i];
      if !IsMarkdown(dir[i].fileName) {
        continue;
      }
      if dir[i].parsed.Some? {
        var def := dir[i].parsed.value.(scope := scope);
        ghost var read := before + InDir(dir[..i], scope);
        OneMore(read, def);
        assert before + InDir(dir[..i + 1], scope) == read + [def];
        if def.name !in seenNames' {
          seenNames' := seenNames' + {def.name};
          definitions' := definitions' + [def];
        }
      }
    }
    assert dir[..|dir|] == dir;
  }

  method DiscoverWithHome(w: World) returns (definitions: seq<Definition>)
    ensures definitions == Discovered(w)
  {
    definitions := [];
    var seenNames: set<string> := {};
    var userDirs := UserAgentDirs(w);
    var dirs := Scoped(ProjectDirs(w, w.chain), Project) + userDirs;
    for i := 0 to |dirs|
      invariant definitions == FirstByName(Candidates(w, dirs[..i]))
      invariant seenNames == Names(Candidates(w, dirs[..i]))
    {
      assert dirs[..i + 1][..i] == dirs[..i];
      if dirs[i].0 in w.dirs {
        definitions, seenNames :=
          LoadDefinitionsFromDir(w.dirs[dirs[i].0], dirs[i].1, definitions, seenNames, Candidates(w, dirs[..i]));
      }
    }
    assert dirs[..|dirs|] == dirs;
  }

  // ---------------------------------------------------------------- the visible list

  datatype ConfigSource =
    | PluginConfig(plugin: string, path: string)
    | ProjectConfig(path: string)
    | UserConfig(path: string)
    | BuiltinConfig

  function SourceFromAgentDef(def: Definition): ConfigSource {
    var path := if def.sourcePath.Some? then def.sourcePath.value else "";
    if def.pluginName.Some? then PluginConfig(def.pluginName.value, path)
    else
      match def.scope
      case Project => ProjectConfig(path)
      case User => UserConfig(path)
      case Bundled => BuiltinConfig
      case BuiltIn => BuiltinConfig
  }

  datatype Source = FromBuiltin(b: Builtin) | UserDefined(scope: Scope)

  datatype SubagentEntry = SubagentEntry(
    name: string,
    description: string,
    source: Source,
    shadowsBuiltin: Option<Builtin>,
    configSource: ConfigSource)

  function Priority(s: Scope): nat {
    match s
    case Project => 3
    case User => 2
    case Bundled => 1
    case BuiltIn => 0
  }

  function BuiltinEntry(w: World, b: Builtin): SubagentEntry {
    SubagentEntry(NameOf(b), w.describe(b), FromBuiltin(b), None, BuiltinConfig)
  }

  function Seed(w: World): seq<SubagentEntry> {
    [BuiltinEntry(w, GeneralPurpose), BuiltinEntry(w, Explore), BuiltinEntry(w, Plan)]
  }

  function Position(entries: seq<SubagentEntry>, name: string): Option<nat> {
    if entries == [] then None
    else
      var n := |entries| - 1;
      var front := Position(entries[..n], name);
      if front.Some? then front else if entries[n].name == name then Some(n) else None
  }

  function ShadowedBy(def: Definition): Option<Builtin> {
    if IsLaunchable(def.name) then FromName(def.name) else None
  }

  predicate Skipped(def: Definition) {
    def.scope == BuiltIn || (ShadowedBy(def).Some? && def.scope != Project)
  }

  predicate Replaces(def: Definition, old': SubagentEntry) {
    old'.source.FromBuiltin? || Priority(def.scope) > Priority(old'.source.scope)
  }

  function UserEntry(def: Definition, shadows: Option<Builtin>): SubagentEntry {
    SubagentEntry(def.name, def.description, UserDefined(def.scope), shadows, SourceFromAgentDef(def))
  }

  method MergeSubagents(w: World, discovered: seq<Definition>, toggle: map<string, bool>)
    returns (visible: seq<SubagentEntry>)
    ensures visible == Enabled(MergedEntries(w, discovered), toggle)
  {
    var entries := Seed(w);
    for i := 0 to |discovered|
      invariant entries == MergedEntries(w, discovered[..i])
    {
      var def := discovered[i];
      assert discovered[..i + 1][..i] == discovered[..i];
      if def.scope == BuiltIn {
        continue;
      }
      var builtinName := ShadowedBy(def);
      if builtinName.Some? && def.scope != Project {
        continue;
      }
      var pos := Position(entries, def.name);
      if pos.Some? {
        PositionFinds(entries, def.name);
        if Replaces(def, entries[pos.value]) {
          entries := entries[pos.value := UserEntry(def, builtinName)];
        }
      } else {
        entries := entries + [UserEntry(def, None)];
      }
    }
    assert discovered[..|discovered|] == discovered;
    visible := Enabled(entries, toggle);
  }

  function MergeOne(entries: seq<SubagentEntry>, def: Definition): seq<SubagentEntry> {
    PositionFinds(entries, def.name);
    var pos := Position(entries, def.name);
    if Skipped(def) then entries
    else if pos.None? then
      entries + [UserEntry(def, None)]
    else if Replaces(def, entries[pos.value]) then
      entries[pos.value := UserEntry(def, ShadowedBy(def))]
    else entries
  }

  function MergedEntries(w: World, discovered: seq<Definition>): seq<SubagentEntry> {
    if discovered == [] then Seed(w)
    else MergeOne(MergedEntries(w, discovered[..|discovered| - 1]), discovered[|discovered| - 1])
  }

  /** Toggles switch entries off; a name without a toggle is on. */
  function Enabled(entries: seq<SubagentEntry>, toggle: map<string, bool>): seq<SubagentEntry> {
    Filter((e: SubagentEntry) => e.name in toggle ==> toggle[e.name], entries)
  }

  function AllSubagents(w: World, toggle: map<string, bool>): seq<SubagentEntry> {
    Enabled(MergedEntries(w, Discovered(w)), toggle)
  }

  lemma {:induction false} PositionFinds(entries: seq<SubagentEntry>, name: string)
    ensures Position(entries, name).Some? ==>
      var p := Position(entries, name).value;
      p < |entries| && entries[p].name == name
    ensures Position(entries, name).None? ==> forall e :: e in entries ==> e.name != name
  {
    if entries != [] {
      PositionFinds(entries[..|entries| - 1], name);
      assert entries == entries[..|entries| - 1] + [entries[|entries| - 1]];
    }
  }

  // ---------------------------------------------------------------- lookup by name

  /** The parsed definition in `dir/name.md`, if that file is there and parses. */
  function InFile(dir: Dir, name: string, scope: Scope): Option<Definition> {
    if dir == [] then None
    else if dir[0].fileName == name + ".md" then
      if dir[0].parsed.Some? then Some(dir[0].parsed.value.(scope := scope)) else None
    else InFile(dir[1..], name, scope)
  }

  function InDirs(w: World, dirs: seq<(Path, Scope)>, name: string): Option<Definition> {
    if dirs == [] then None
    else
      var here := if dirs[0].0 in w.dirs then InFile(w.dirs[dirs[0].0], name, dirs[0].1) else None;
      if here.Some? then here else InDirs(w, dirs[1..], name)
  }

  function ByNameInCwd(w: World, name: string): Option<Definition> {
    var project := InDirs(w, Scoped(ProjectDirs(w, w.chain), Project), name);
    if project.Some? then project
    else if FromName(name).Some? then Some(DefinitionOf(w, FromName(name).value))
    else InDirs(w, UserDirs(w), name)
  }

  method LookupByNameInCwd(w: World, name: string) returns (def: Option<Definition>)
    ensures def == ByNameInCwd(w, name)
  {
    def := LookupInDirs(w, Scoped(ProjectDirs(w, w.chain), Project), name);
    if def.Some? {
      return;
    }
    var builtin := FromName(name);
    if builtin.Some? {
      return Some(DefinitionOf(w, builtin.value));
    }
    var homeDirs := UserAgentDirs(w);
    def := LookupInDirs(w, homeDirs, name);
  }

  method LookupInDirs(w: World, dirs: seq<(Path, Scope)>, name: string) returns (def: Option<Definition>)
    ensures def == InDirs(w, dirs, name)
  {
    for i := 0 to |dirs|
      invariant InDirs(w, dirs, name) == InDirs(w, dirs[i..], name)
    {
      assert dirs[i..][1..] == dirs[i + 1..];
      if dirs[i].0 in w.dirs {
        def := InFile(w.dirs[dirs[i].0], name, dirs[i].1);
        if def.Some? {
          return;
        }
      }
    }
    return None;
  }

  // ---------------------------------------------------------------- discovery finds what lookup finds

  /** In the directories searched, file names are unique and, of the markdown files that parse, those
      called `name.md` are the ones for the agent `name`. Files for other agents do not matter. */
  ghost predicate Tidy(w: World, name: string) {
    TidyIn(w, SearchDirs(w), name)
  }

  ghost predicate TidyIn(w: World, dirs: seq<(Path, Scope)>, name: string) {
    forall i :: 0 <= i < |dirs| && dirs[i].0 in w.dirs ==> TidyDir(w.dirs[dirs[i].0], name)
  }

  lemma TidyInBoth(w: World, name: string)
    ensures Tidy(w, name) <==>
      TidyIn(w, Scoped(ProjectDirs(w, w.chain), Project), name) && TidyIn(w, UserDirs(w), name)
  {
    hide TidyIn, UserDirs, ProjectDirs, Scoped;
    TidyConcat(w, Scoped(ProjectDirs(w, w.chain), Project), UserDirs(w), name);
  }

  lemma TidyConcat(w: World, a: seq<(Path, Scope)>, b: seq<(Path, Scope)>, name: string)
    ensures TidyIn(w, a + b, name) <==> TidyIn(w, a, name) && TidyIn(w, b, name)
  {
    hide TidyDir;
    assert forall i :: 0 <= i < |b| ==> (a + b)[|a| + i] == b[i];
    assert forall i :: 0 <= i < |a| ==> (a + b)[i] == a[i];
  }

  ghost predicate TidyDir(dir: Dir, name: string) {
    && (forall i, j :: 0 <= i < j < |dir| ==> dir[i].fileName != dir[j].fileName)
    && (forall i :: 0 <= i < |dir| && IsMarkdown(dir[i].fileName) && dir[i].parsed.Some? ==>
          (dir[i].fileName == name + ".md" <==> dir[i].parsed.value.name == name))
  }

  function FirstNamed(defs: seq<Definition>, name: string): Option<Definition> {
    if defs == [] then None
    else if defs[0].name == name then Some(defs[0])
    else FirstNamed(defs[1..], name)
  }

  lemma {:induction false} FirstNamedConcat(a: seq<Definition>, b: seq<Definition>, name: string)
    ensures FirstNamed(a + b, name) == if FirstNamed(a, name).Some? then FirstNamed(a, name) else FirstNamed(b, name)
    decreases |a|
  {
    if a == [] {
      assert a + b == b;
    } else {
      assert (a + b)[1..] == a[1..] + b;
      FirstNamedConcat(a[1..], b, name);
    }
  }

  lemma {:induction false} FirstNamedIn(defs: seq<Definition>, name: string)
    ensures FirstNamed(defs, name).Some? <==> name in Names(defs)
    ensures FirstNamed(defs, name).Some? ==>
      FirstNamed(defs, name).value in defs && FirstNamed(defs, name).value.name == name
  {
    if defs != [] {
      FirstNamedIn(defs[1..], name);
      assert defs == [defs[0]] + defs[1..];
      assert Names(defs) == {defs[0].name} + Names(defs[1..]);
    }
  }

  lemma {:induction false} InFileIffListed(dir: Dir, name: string, scope: Scope)
    requires TidyDir(dir, name) && name != ""
    ensures InFile(dir, name, scope) == FirstNamed(InDir(dir, scope), name)
  {
    if dir != [] {
      var rest := dir[1..];
      InFileIffListed(rest, name, scope);
      InDirFromFront(dir, scope);
      var first := dir[0];
      var here := InDir([first], scope);
      FirstNamedConcat(here, InDir(rest, scope), name);
      assert [first][..0] == [];
      assert IsMarkdown(name + ".md");
      if first.fileName == name + ".md" && first.parsed.None? {
        NoFileNoName(rest, name, scope);
      }
    }
  }

  lemma {:induction false} InDirFromFront(dir: Dir, scope: Scope)
    requires dir != []
    ensures InDir(dir, scope) == InDir([dir[0]], scope) + InDir(dir[1..], scope)
    decreases |dir|
  {
    var n := |dir| - 1;
    if n > 0 {
      InDirFromFront(dir[..n], scope);
      assert dir[..n][1..] == dir[1..][..n - 1];
      assert dir[1..][n - 1] == dir[n];
    } else {
      assert dir == [dir[0]];
    }
  }

  lemma {:induction false} NoFileNoName(dir: Dir, name: string, scope: Scope)
    requires TidyDir(dir, name)
    requires forall i :: 0 <= i < |dir| ==> dir[i].fileName != name + ".md"
    ensures FirstNamed(InDir(dir, scope), name) == None
  {
    if dir != [] {
      var n := |dir| - 1;
      NoFileNoName(dir[..n], name, scope);
      FirstNamedConcat(InDir(dir[..n], scope), InDir(dir, scope)[|InDir(dir[..n], scope)|..], name);
      assert InDir(dir, scope) ==
        InDir(dir[..n], scope) + InDir(dir, scope)[|InDir(dir[..n], scope)|..];
    }
  }

  lemma CandidatesOfOne(w: World, dir: (Path, Scope))
    ensures Candidates(w, [dir]) == if dir.0 in w.dirs then InDir(w.dirs[dir.0], dir.1) else []
  {
  }

  lemma {:induction false} InDirsIsFirstCandidate(w: World, dirs: seq<(Path, Scope)>, name: string)
    requires TidyIn(w, dirs, name) && name != ""
    ensures InDirs(w, dirs, name) == FirstNamed(Candidates(w, dirs), name)
    decreases |dirs|
  {
    if dirs != [] {
      InDirsIsFirstCandidate(w, dirs[1..], name);
      CandidatesFromFront(w, dirs);
      CandidatesOfOne(w, dirs[0]);
      FirstNamedConcat(Candidates(w, [dirs[0]]), Candidates(w, dirs[1..]), name);
      if dirs[0].0 in w.dirs {
        InFileIffListed(w.dirs[dirs[0].0], name, dirs[0].1);
      }
    }
  }

  lemma {:induction false} CandidatesFromFront(w: World, dirs: seq<(Path, Scope)>)
    requires dirs != []
    ensures Candidates(w, dirs) == Candidates(w, [dirs[0]]) + Candidates(w, dirs[1..])
    decreases |dirs|
  {
    var n := |dirs| - 1;
    if n > 0 {
      CandidatesFromFront(w, dirs[..n]);
      assert dirs[..n][1..] == dirs[1..][..n - 1];
      assert dirs[1..][n - 1] == dirs[n];
    } else {
      assert dirs == [dirs[0]];
    }
  }

  lemma {:induction false} CandidatesConcat(w: World, a: seq<(Path, Scope)>, b: seq<(Path, Scope)>)
    ensures Candidates(w, a + b) == Candidates(w, a) + Candidates(w, b)
    decreases |b|
  {
    if b == [] {
      assert a + b == a;
    } else {
      var n := |b| - 1;
      CandidatesConcat(w, a, b[..n]);
      assert (a + b)[..|a| + n] == a + b[..n];
    }
  }

  // ---------------------------------------------------------------- scopes

  lemma {:induction false} InDirScope(dir: Dir, scope: Scope, d: Definition)
    requires d in InDir(dir, scope)
    ensures d.scope == scope
  {
    if dir != [] && d in InDir(dir[..|dir| - 1], scope) {
      InDirScope(dir[..|dir| - 1], scope, d);
    }
  }

  lemma {:induction false} CandidateScope(w: World, dirs: seq<(Path, Scope)>, d: Definition)
    requires d in Candidates(w, dirs)
    ensures exists i :: 0 <= i < |dirs| && d.scope == dirs[i].1
  {
    var n := |dirs| - 1;
    if d in Candidates(w, dirs[..n]) {
      CandidateScope(w, dirs[..n], d);
      var i :| 0 <= i < n && d.scope == dirs[..n][i].1;
      assert d.scope == dirs[i].1;
    } else {
      InDirScope(w.dirs[dirs[n].0], dirs[n].1, d);
    }
  }

  lemma OneScope(w: World, dirs: seq<(Path, Scope)>, scope: Scope)
    requires forall i :: 0 <= i < |dirs| ==> dirs[i].1 == scope
    ensures forall d :: d in Candidates(w, dirs) ==> d.scope == scope
  {
    forall d | d in Candidates(w, dirs)
      ensures d.scope == scope
    {
      CandidateScope(w, dirs, d);
    }
  }

  lemma {:induction false} ScopedScopes(dirs: seq<Path>, scope: Scope)
    ensures forall i :: 0 <= i < |Scoped(dirs, scope)| ==> Scoped(dirs, scope)[i].1 == scope
  {
    if dirs != [] {
      ScopedScopes(dirs[1..], scope);
    }
  }

  lemma {:induction false} NamedNotEmpty(w: World, dirs: seq<(Path, Scope)>, d: Definition)
    requires TidyIn(w, dirs, d.name) && d in Candidates(w, dirs)
    ensures d.name != ""
  {
    var n := |dirs| - 1;
    if d in Candidates(w, dirs[..n]) {
      NamedNotEmpty(w, dirs[..n], d);
    } else {
      NamedNotEmptyInDir(w.dirs[dirs[n].0], dirs[n].1, d);
    }
  }

  lemma {:induction false} NamedNotEmptyInDir(dir: Dir, scope: Scope, d: Definition)
    requires TidyDir(dir, d.name) && d in InDir(dir, scope)
    ensures d.name != ""
  {
    var n := |dir| - 1;
    if d in InDir(dir[..n], scope) {
      NamedNotEmptyInDir(dir[..n], scope, d);
    } else {
      assert dir[n].fileName == d.name + ".md";
    }
  }

  function ProjectCandidates(w: World): seq<Definition> {
    Candidates(w, Scoped(ProjectDirs(w, w.chain), Project))
  }

  function UserCandidates(w: World): seq<Definition> {
    Candidates(w, UserDirs(w))
  }

  lemma CandidatesSplit(w: World)
    ensures Candidates(w, SearchDirs(w)) == ProjectCandidates(w) + UserCandidates(w)
    ensures forall d :: d in ProjectCandidates(w) ==> d.scope == Project
    ensures forall d :: d in UserCandidates(w) ==> d.scope == User || d.scope == Bundled
  {
    CandidatesConcat(w, Scoped(ProjectDirs(w, w.chain), Project), UserDirs(w));
    ScopedScopes(ProjectDirs(w, w.chain), Project);
    forall d | d in ProjectCandidates(w)
      ensures d.scope == Project
    {
      CandidateScope(w, Scoped(ProjectDirs(w, w.chain), Project), d);
    }
    forall d | d in UserCandidates(w)
      ensures d.scope == User || d.scope == Bundled
    {
      CandidateScope(w, UserDirs(w), d);
    }
  }

  predicate Offers(defs: seq<Definition>, name: string, scope: Scope) {
    exists d :: d in defs && d.name == name && d.scope == scope
  }

  // ---------------------------------------------------------------- the discovered list

  lemma {:induction false} FirstByNameIsFirstNamed(defs: seq<Definition>, d: Definition)
    ensures d in FirstByName(defs) <==> FirstNamed(defs, d.name) == Some(d)
  {
    if defs != [] {
      var n := |defs| - 1;
      FirstByNameIsFirstNamed(defs[..n], d);
      assert defs == defs[..n] + [defs[n]];
      FirstNamedConcat(defs[..n], [defs[n]], d.name);
      FirstNamedIn(defs[..n], d.name);
    }
  }

  ghost predicate DistinctNames(defs: seq<Definition>) {
    forall i, j :: 0 <= i < j < |defs| ==> defs[i].name != defs[j].name
  }

  lemma FirstByNameDistinct(defs: seq<Definition>)
    ensures DistinctNames(FirstByName(defs)) && Names(FirstByName(defs)) == Names(defs)
  {
    FirstByDistinct(ByName(), defs);
    assert forall i :: 0 <= i < |FirstByName(defs)| ==> ByName()(FirstByName(defs)[i]) == FirstByName(defs)[i].name;
  }

  // ---------------------------------------------------------------- the merged list

  ghost predicate DistinctEntries(entries: seq<SubagentEntry>) {
    forall i, j :: 0 <= i < j < |entries| ==> entries[i].name != entries[j].name
  }

  /** Of the definitions of a name that the merge does not skip, the one it keeps: the highest scope,
      and the earliest of that scope. */
  function Best(discovered: seq<Definition>, name: string): Option<Definition> {
    if discovered == [] then None
    else
      var n := |discovered| - 1;
      Better(Best(discovered[..n], name), discovered[n], name)
  }

  function Better(best: Option<Definition>, def: Definition, name: string): Option<Definition> {
    if def.name == name && !Skipped(def) && (best.None? || Priority(def.scope) > Priority(best.value.scope))
    then Some(def) else best
  }

  /** The entry that the merge should hold for a name, given the best definition of it. */
  function ExpectedOf(w: World, best: Option<Definition>, name: string): Option<SubagentEntry> {
    if best.Some? then Some(UserEntry(best.value, ShadowedBy(best.value)))
    else if IsLaunchable(name) then Some(BuiltinEntry(w, LaunchableOf(name)))
    else None
  }

  function LaunchableOf(name: string): Builtin {
    if name == NameOf(GeneralPurpose) then GeneralPurpose
    else if name == NameOf(Explore) then Explore
    else Plan
  }

  ghost predicate Holds(entries: seq<SubagentEntry>, name: string, want: Option<SubagentEntry>) {
    if want.None? then forall i :: 0 <= i < |entries| ==> entries[i].name != name
    else want.value.name == name && want.value in entries
  }

  /** The merged list has one entry for each name, that of the best definition. */
  lemma {:induction false} MergedAsExpected(w: World, discovered: seq<Definition>, name: string)
    ensures DistinctEntries(MergedEntries(w, discovered))
    ensures Holds(MergedEntries(w, discovered), name, ExpectedOf(w, Best(discovered, name), name))
    decreases |discovered|
  {
    if discovered == [] {
      SeedAsExpected(w, name);
    } else {
      var n := |discovered| - 1;
      var def := discovered[n];
      var front := discovered[..n];
      MergedAsExpected(w, front, name);
      MergedAsExpected(w, front, def.name);
      BestNamed(front, def.name);
      MergeOneHolds(w, MergedEntries(w, front), def, name, Best(front, name), Best(front, def.name));
    }
  }

  lemma {:induction false} BestNamed(discovered: seq<Definition>, name: string)
    ensures var best := Best(discovered, name);
      best.Some? ==> best.value in discovered && best.value.name == name && !Skipped(best.value)
  {
    if discovered != [] {
      BestNamed(discovered[..|discovered| - 1], name);
    }
  }

  lemma SeedAsExpected(w: World, name: string)
    ensures DistinctEntries(Seed(w)) && Holds(Seed(w), name, ExpectedOf(w, None, name))
  {
    var s := Seed(w);
    assert |s[0].name| == 15 && |s[1].name| == 7 && |s[2].name| == 4;
    if IsLaunchable(name) {
      var i := if name == NameOf(GeneralPurpose) then 0 else if name == NameOf(Explore) then 1 else 2;
      assert s[i].name == name;
    }
  }

  lemma MergeOneHolds(w: World, entries: seq<SubagentEntry>, def: Definition, name: string,
                      best: Option<Definition>, prior: Option<Definition>)
    requires DistinctEntries(entries)
    requires Holds(entries, name, ExpectedOf(w, best, name))
    requires Holds(entries, def.name, ExpectedOf(w, prior, def.name))
    requires name == def.name ==> best == prior
    ensures DistinctEntries(MergeOne(entries, def))
    ensures Holds(MergeOne(entries, def), name, ExpectedOf(w, Better(best, def, name), name))
  {
    if !Skipped(def) {
      PositionFinds(entries, def.name);
      var pos := Position(entries, def.name);
      var after := MergeOne(entries, def);
      var at := if pos.Some? then pos.value else |entries|;
      var expected := ExpectedOf(w, prior, def.name);
      hide Position, Skipped, MergeOne, NameOf, SourceFromAgentDef, FromName, LaunchableOf;
      MergeOneAt(entries, def);
      if pos.Some? {
        assert entries[at] == expected.value by {
          var i :| 0 <= i < |entries| && entries[i] == expected.value;
          assert i == at;
        }
      }
      if name == def.name {
        assert after[at].name == name;
      } else if ExpectedOf(w, best, name).Some? {
        var i :| 0 <= i < |entries| && entries[i] == ExpectedOf(w, best, name).value;
        assert after[i] == entries[i];
      }
    }
  }

  lemma MergeOneAt(entries: seq<SubagentEntry>, def: Definition)
    requires !Skipped(def)
    ensures
      var pos := Position(entries, def.name);
      if pos.None? then MergeOne(entries, def) == entries + [UserEntry(def, None)]
      else
        && pos.value < |entries|
        && MergeOne(entries, def) == if Replaces(def, entries[pos.value])
             then entries[pos.value := UserEntry(def, ShadowedBy(def))] else entries
  {
    PositionFinds(entries, def.name);
  }

  lemma EnabledContents(entries: seq<SubagentEntry>, toggle: map<string, bool>) returns (picks: seq<int>)
    ensures Increasing(picks)
    ensures forall i :: i in picks <==> 0 <= i < |entries| && (entries[i].name in toggle ==> toggle[entries[i].name])
    ensures |picks| == |Enabled(entries, toggle)|
    ensures forall k :: 0 <= k < |picks| ==>
      0 <= picks[k] < |entries| && Enabled(entries, toggle)[k] == entries[picks[k]]
    ensures forall e :: e in Enabled(entries, toggle) <==> e in entries && (e.name in toggle ==> toggle[e.name])
  {
    picks := FilterPicks((e: SubagentEntry) => e.name in toggle ==> toggle[e.name], entries);
    forall e
      ensures e in Enabled(entries, toggle) <==> e in entries && (e.name in toggle ==> toggle[e.name])
    {
      FilterContents((e: SubagentEntry) => e.name in toggle ==> toggle[e.name], entries, e);
    }
  }

  lemma EnabledDistinct(entries: seq<SubagentEntry>, toggle: map<string, bool>)
    requires DistinctEntries(entries)
    ensures DistinctEntries(Enabled(entries, toggle))
  {
    var picks := EnabledContents(entries, toggle);
    assert forall k, l :: 0 <= k < l < |picks| ==> picks[k] < picks[l];
  }

  // ---------------------------------------------------------------- visible and callable

  function ScopeOf(s: Source): Scope {
    if s.FromBuiltin? then BuiltIn else s.scope
  }

  predicate Resolves(e: SubagentEntry, def: Option<Definition>) {
    && def.Some?
    && def.value.name == e.name
    && def.value.description == e.description
    && def.value.scope == ScopeOf(e.source)
    && ConfiguredBy(def.value, e.configSource)
  }

  /** The config source names the plugin and file, or just the file, that a definition comes from. */
  predicate ConfiguredBy(def: Definition, source: ConfigSource) {
    match source
    case PluginConfig(plugin, path) => def.pluginName == Some(plugin) && FileOf(def, path)
    case ProjectConfig(path) => def.pluginName == None && def.scope == Project && FileOf(def, path)
    case UserConfig(path) => def.pluginName == None && def.scope == User && FileOf(def, path)
    case BuiltinConfig => def.pluginName == None && (def.scope == Bundled || def.scope == BuiltIn)
  }

  predicate FileOf(def: Definition, path: string) {
    def.sourcePath == Some(path) || (def.sourcePath == None && path == "")
  }

  /** A user-level or bundled agent that carries the name of some built-in agent. */
  predicate HidesBehindBuiltin(e: SubagentEntry) {
    e.source.UserDefined? && e.source.scope != Project && FromName(e.name).Some?
  }

  lemma LaunchablesAreBuiltin(name: string)
    ensures IsLaunchable(name) ==> FromName(name) == Some(LaunchableOf(name))
  {
    if IsLaunchable(name) {
      var b := LaunchableOf(name);
      assert NameOf(b) == name;
      FindNamedSkips(ALL, name, if b == GeneralPurpose then 7 else if b == Explore then 8 else 9);
    }
  }

  lemma {:induction false} FindNamedSkips(bs: seq<Builtin>, name: string, k: nat)
    requires k < |bs| && NameOf(bs[k]) == name
    requires forall i :: 0 <= i < k ==> NameOf(bs[i]) != name
    ensures FindNamed(bs, name) == Some(bs[k])
    decreases k
  {
    if k > 0 {
      FindNamedSkips(bs[1..], name, k - 1);
    }
  }

  lemma FromNameNames(name: string)
    ensures FromName(name).Some? ==> NameOf(FromName(name).value) == name
  {
    FindNamedNames(ALL, name);
  }

  lemma {:induction false} FindNamedNames(bs: seq<Builtin>, name: string)
    ensures FindNamed(bs, name).Some? ==> NameOf(FindNamed(bs, name).value) == name
  {
    if bs != [] {
      FindNamedNames(bs[1..], name);
    }
  }

  lemma FoundIsNamed(w: World, name: string)
    requires Tidy(w, name)
    ensures FirstNamed(ProjectCandidates(w), name).Some? || FirstNamed(UserCandidates(w), name).Some? ==> name != ""
  {
    TidyInBoth(w, name);
    FirstNamedIn(ProjectCandidates(w), name);
    FirstNamedIn(UserCandidates(w), name);
    if FirstNamed(ProjectCandidates(w), name).Some? {
      NamedNotEmpty(w, Scoped(ProjectDirs(w, w.chain), Project), FirstNamed(ProjectCandidates(w), name).value);
    } else if FirstNamed(UserCandidates(w), name).Some? {
      NamedNotEmpty(w, UserDirs(w), FirstNamed(UserCandidates(w), name).value);
    }
  }

  /** Lookup in terms of what discovery reads. */
  lemma LookupAsCandidates(w: World, name: string)
    requires Tidy(w, name) && name != ""
    ensures ByNameInCwd(w, name) ==
      if FirstNamed(ProjectCandidates(w), name).Some? then FirstNamed(ProjectCandidates(w), name)
      else if FromName(name).Some? then Some(DefinitionOf(w, FromName(name).value))
      else FirstNamed(UserCandidates(w), name)
  {
    TidyInBoth(w, name);
    InDirsIsFirstCandidate(w, Scoped(ProjectDirs(w, w.chain), Project), name);
    InDirsIsFirstCandidate(w, UserDirs(w), name);
  }

  lemma EarlierScopeFirst(w: World, user: seq<(Path, Scope)>, bundled: seq<(Path, Scope)>, name: string)
    requires forall i :: 0 <= i < |user| ==> user[i].1 == User
    requires forall i :: 0 <= i < |bundled| ==> bundled[i].1 == Bundled
    ensures
      var all := Candidates(w, user + bundled);
      var first := FirstNamed(all, name);
      if Offers(all, name, User) then first.Some? && first.value.scope == User
      else if Offers(all, name, Bundled) then first.Some? && first.value.scope == Bundled
      else first.None?
  {
    hide Candidates, FirstNamed;
    var a, b := Candidates(w, user), Candidates(w, bundled);
    CandidatesConcat(w, user, bundled);
    FirstNamedConcat(a, b, name);
    FirstNamedIn(a, name);
    FirstNamedIn(b, name);
    OneScope(w, user, User);
    OneScope(w, bundled, Bundled);
  }

  /** The user directories come before the bundled ones. */
  lemma UserBeforeBundled(w: World, name: string)
    ensures
      var first := FirstNamed(UserCandidates(w), name);
      if Offers(UserCandidates(w), name, User) then first.Some? && first.value.scope == User
      else if Offers(UserCandidates(w), name, Bundled) then first.Some? && first.value.scope == Bundled
      else first.None?
  {
    hide Candidates, FirstNamed, Offers;
    var user := Under(w.grokHome, ["agents"], User) + Under(LegacyGrok(w), ["agents"], User)
                + Under(w.home, [".claude", "agents"], User);
    var bundled := Under(w.grokHome, ["bundled", "agents"], Bundled)
                   + Under(LegacyGrok(w), ["bundled", "agents"], Bundled);
    assert UserDirs(w) == user + bundled;
    EarlierScopeFirst(w, user, bundled, name);
  }

  /** Lookup prefers project files to built-in agents, those to user files, and those to bundled
      ones, and finds nothing only where none of them has the name. */
  lemma LookupPrecedence(w: World, name: string)
    requires Tidy(w, name) && name != ""
    ensures
      var def := ByNameInCwd(w, name);
      if Offers(ProjectCandidates(w), name, Project) then def.Some? && def.value.scope == Project
      else if FromName(name).Some? then def.Some? && def.value.scope == BuiltIn
      else if Offers(UserCandidates(w), name, User) then def.Some? && def.value.scope == User
      else if Offers(UserCandidates(w), name, Bundled) then def.Some? && def.value.scope == Bundled
      else def.None?
  {
    LookupAsCandidates(w, name);
    CandidatesSplit(w);
    FirstNamedIn(ProjectCandidates(w), name);
    UserBeforeBundled(w, name);
  }

  /** The first discovered definition of a name, project directories first. */
  lemma DiscoveredAsCandidates(w: World, name: string)
    ensures FirstNamed(Discovered(w), name) ==
      if FirstNamed(ProjectCandidates(w), name).Some? then FirstNamed(ProjectCandidates(w), name)
      else FirstNamed(UserCandidates(w), name)
    ensures DistinctNames(Discovered(w))
  {
    var all := Candidates(w, SearchDirs(w));
    CandidatesSplit(w);
    FirstNamedConcat(ProjectCandidates(w), UserCandidates(w), name);
    FirstByNameDistinct(all);
    FirstNamedIn(all, name);
    FirstNamedIn(Discovered(w), name);
    if FirstNamed(all, name).Some? {
      var d := FirstNamed(all, name).value;
      FirstByNameIsFirstNamed(all, d);
      FirstByNameIsFirstNamed(all, FirstNamed(Discovered(w), name).value);
    }
  }

  /** Of the first definition found, whether the merge keeps it. */
  function Kept(found: Option<Definition>): Option<Definition> {
    if found.Some? && !Skipped(found.value) then found else None
  }

  lemma {:induction false} BestOfDistinct(discovered: seq<Definition>, name: string)
    requires DistinctNames(discovered)
    ensures Best(discovered, name) == Kept(FirstNamed(discovered, name))
  {
    if discovered != [] {
      var n := |discovered| - 1;
      BestOfDistinct(discovered[..n], name);
      FirstNamedConcat(discovered[..n], [discovered[n]], name);
      FirstNamedIn(discovered[..n], name);
      assert discovered == discovered[..n] + [discovered[n]];
      hide Skipped;
    }
  }

  /** What the visible list says about a name: the whole entry of the definition discovery found first,
      unless the merge skips it or the name is switched off. */
  lemma VisibleAsExpected(w: World, toggle: map<string, bool>, name: string)
    ensures DistinctEntries(AllSubagents(w, toggle))
    ensures forall e :: e in AllSubagents(w, toggle) && e.name == name ==>
      ExpectedOf(w, Kept(FirstNamed(Discovered(w), name)), name) == Some(e)
    ensures (exists e :: e in AllSubagents(w, toggle) && e.name == name) <==>
      (name in toggle ==> toggle[name]) && ExpectedOf(w, Kept(FirstNamed(Discovered(w), name)), name).Some?
  {
    var entries := MergedEntries(w, Discovered(w));
    DiscoveredAsCandidates(w, name);
    BestOfDistinct(Discovered(w), name);
    MergedAsExpected(w, Discovered(w), name);
    EnabledDistinct(entries, toggle);
    var picks := EnabledContents(entries, toggle);
    var want := ExpectedOf(w, Kept(FirstNamed(Discovered(w), name)), name);
    hide MergedEntries, Discovered, FirstNamed, ExpectedOf, Best, Kept, Enabled;
    forall e | e in AllSubagents(w, toggle) && e.name == name
      ensures want == Some(e) && (name in toggle ==> toggle[name])
    {
      var j :| 0 <= j < |entries| && entries[j] == e;
      if want.Some? {
        var i :| 0 <= i < |entries| && entries[i] == want.value;
      }
    }
  }

  lemma FoundScopes(w: World, name: string)
    requires Tidy(w, name)
    ensures
      var p, u := FirstNamed(ProjectCandidates(w), name), FirstNamed(UserCandidates(w), name);
      var found := FirstNamed(Discovered(w), name);
      && found == (if p.Some? then p else u)
      && (found.Some? ==> found.value.name == name != "" && found.value.scope != BuiltIn)
      && (p.Some? ==> p.value.name == name && p.value.scope == Project)
      && (u.Some? ==> u.value.name == name && (u.value.scope == User || u.value.scope == Bundled))
  {
    DiscoveredAsCandidates(w, name);
    CandidatesSplit(w);
    FirstNamedIn(ProjectCandidates(w), name);
    FirstNamedIn(UserCandidates(w), name);
    FoundIsNamed(w, name);
  }

  lemma ExpectedWhen(w: World, found: Option<Definition>, name: string)
    requires found.Some? ==> found.value.name == name && found.value.scope != BuiltIn
    ensures ExpectedOf(w, Kept(found), name).Some? <==> found.Some? || IsLaunchable(name)
    ensures IsLaunchable(name) ==> name != ""
  {
  }

  /** Comparing the two, given the first project and user definitions of one name. */
  lemma SameAnswer(w: World, e: SubagentEntry, project: Option<Definition>, user: Option<Definition>)
    requires project.Some? ==> project.value.name == e.name && project.value.scope == Project
    requires user.Some? ==> user.value.name == e.name && (user.value.scope == User || user.value.scope == Bundled)
    requires ExpectedOf(w, Kept(if project.Some? then project else user), e.name) == Some(e)
    ensures
      var answer :=
        if project.Some? then project
        else if FromName(e.name).Some? then Some(DefinitionOf(w, FromName(e.name).value))
        else user;
      Resolves(e, answer) <==> !HidesBehindBuiltin(e)
  {
    LaunchablesAreBuiltin(e.name);
    FromNameNames(e.name);
    hide FromName, NameOf, IsLaunchable, LaunchableOf;
  }

  /** Visible is callable: a visible entry resolves by its name to a definition of the same
      scope, description and config source, except exactly when it is a user-level or bundled agent
      named like a built-in one; and no two visible entries share a name. */
  lemma VisibleIsCallable(w: World, toggle: map<string, bool>, e: SubagentEntry)
    requires Tidy(w, e.name) && e in AllSubagents(w, toggle)
    ensures Resolves(e, ByNameInCwd(w, e.name)) <==> !HidesBehindBuiltin(e)
    ensures DistinctEntries(AllSubagents(w, toggle))
  {
    hide AllSubagents, Discovered, ByNameInCwd, FirstNamed, FromName, ExpectedOf, Kept, DistinctEntries;
    hide ProjectCandidates, UserCandidates, IsLaunchable;
    VisibleAsExpected(w, toggle, e.name);
    FoundScopes(w, e.name);
    ExpectedWhen(w, FirstNamed(Discovered(w), e.name), e.name);
    LookupAsCandidates(w, e.name);
    SameAnswer(w, e, FirstNamed(ProjectCandidates(w), e.name), FirstNamed(UserCandidates(w), e.name));
  }

  /** Callable is visible: a name is listed exactly when it is not switched off, resolves, and does
      not merely resolve to a built-in agent that cannot be launched. */
  lemma CallableIsVisible(w: World, toggle: map<string, bool>, name: string)
    requires Tidy(w, name)
    ensures (exists e :: e in AllSubagents(w, toggle) && e.name == name) <==>
      && (name in toggle ==> toggle[name])
      && name != "" && ByNameInCwd(w, name).Some?
      && (FromName(name).Some? && !IsLaunchable(name) ==> FirstNamed(Discovered(w), name).Some?)
  {
    hide ByNameInCwd, AllSubagents, Discovered, ProjectCandidates, UserCandidates, FirstNamed, FromName;
    hide ExpectedOf, Kept, NameOf, IsLaunchable, LaunchableOf, DistinctEntries, Tidy;
    VisibleAsExpected(w, toggle, name);
    FoundScopes(w, name);
    LaunchablesAreBuiltin(name);
    ExpectedWhen(w, FirstNamed(Discovered(w), name), name);
    if name != "" {
      LookupAsCandidates(w, name);
    }
  }

  /** A home whose only agent file is `codex.md`, for an agent named like the built-in `codex`. */
  ghost function Shadowing(): World {
    World(map[["agents"] := ShadowingDir()], [], None, Some([]), (b: Builtin) => "")
  }

  ghost function ShadowingDir(): Dir {
    [DirEntry("codex.md", Some(ShadowingAgent()))]
  }

  ghost function ShadowingAgent(): Definition {
    Definition("codex", "mine", User, None, None)
  }

  /** The exception is real: the agent is listed, and calling it gives the built-in one. */
  lemma ShadowingIsNotCallable() returns (e: SubagentEntry)
    ensures
      var w := Shadowing();
      && Tidy(w, e.name)
      && e in AllSubagents(w, map[])
      && e.description == "mine"
      && HidesBehindBuiltin(e)
      && ByNameInCwd(w, e.name) == Some(DefinitionOf(w, Codex))
      && !Resolves(e, ByNameInCwd(w, e.name))
  {
    CodexIsBuiltin();
    e := ShadowingListed();
    ShadowingLookup();
    hide AllSubagents, ByNameInCwd, FromName, UserDirs, ProjectDirs;
  }

  lemma CodexIsBuiltin()
    ensures FromName("codex") == Some(Codex) && !IsLaunchable("codex")
  {
    assert NameOf(GrokBuild)[0] != "codex"[0] && |"codex"| == 5;
    FindNamedSkips(ALL, "codex", 5);
  }

  lemma ShadowingCandidates(w: World)
    requires w == Shadowing()
    ensures ProjectCandidates(w) == [] && UserCandidates(w) == [ShadowingAgent()]
  {
    assert [] + ["agents"] == ["agents"];
    var home, bundled := (["agents"], User), ([] + ["bundled", "agents"], Bundled);
    assert UserDirs(w) == [home, bundled];
    assert ["bundled", "agents"][0][0] != ["agents"][0][0];
    assert [home, bundled][..1] == [home] && [home, bundled][1] == bundled;
    CandidatesOfOne(w, home);
    assert ShadowingDir()[..0] == [];
    assert InDir(ShadowingDir(), User) == [ShadowingAgent()];
  }

  lemma ShadowingFound()
    ensures FirstNamed(Discovered(Shadowing()), "codex") == Some(ShadowingAgent())
  {
    hide Discovered, UserDirs, ProjectDirs, Candidates;
    ShadowingCandidates(Shadowing());
    DiscoveredAsCandidates(Shadowing(), "codex");
  }

  lemma ShadowingListed() returns (e: SubagentEntry)
    ensures e in AllSubagents(Shadowing(), map[]) && e.name == "codex"
    ensures e.description == "mine" && e.source == UserDefined(User)
  {
    hide AllSubagents, Discovered, Shadowing, FirstNamed, FromName, IsLaunchable, DistinctEntries;
    ShadowingFound();
    CodexIsBuiltin();
    VisibleAsExpected(Shadowing(), map[], "codex");
    e :| e in AllSubagents(Shadowing(), map[]) && e.name == "codex";
  }

  lemma ShadowingLookup()
    ensures ByNameInCwd(Shadowing(), "codex") == Some(DefinitionOf(Shadowing(), Codex))
  {
    CodexIsBuiltin();
    hide FromName, UserDirs;
    assert ProjectDirs(Shadowing(), []) == [];
    assert Scoped([], Project) == [];
  }

  /** A project whose only agent file is `rev.md`, for an agent that calls itself `reviewer`. */
  ghost function Misnamed(): World {
    World(
      map[[".grok", "agents"] := MisnamedDir()], [[]], None, None, (b: Builtin) => "")
  }

  ghost function MisnamedDir(): Dir {
    [DirEntry("rev.md", Some(Definition("reviewer", "reads code", Project, None, None)))]
  }

  /** The assumption on file names is needed: such an agent is listed but cannot be called. */
  lemma MisnamedFileIsNotCallable()
    ensures exists e :: e in AllSubagents(Misnamed(), map[]) && e.name == "reviewer"
    ensures ByNameInCwd(Misnamed(), "reviewer") == None
  {
    MisnamedListed();
    MisnamedLookup();
  }

  lemma MisnamedListed()
    ensures exists e :: e in AllSubagents(Misnamed(), map[]) && e.name == "reviewer"
  {
    hide AllSubagents, NameOf, FromName, IsLaunchable, LaunchableOf, Discovered, UserDirs, ProjectDirs;
    var w := Misnamed();
    var here := ([".grok", "agents"], Project);
    MisnamedDirs(w);
    CandidatesOfOne(w, here);
    assert MisnamedDir()[..0] == [];
    assert InDir(MisnamedDir(), Project) == [MisnamedDir()[0].parsed.value];
    DiscoveredAsCandidates(w, "reviewer");
    VisibleAsExpected(w, map[], "reviewer");
  }

  lemma ReviewerIsNoBuiltin()
    ensures FromName("reviewer").None?
  {
    assert "reviewer"[0] != NameOf(Opencode)[0];
    NoSuchBuiltin(ALL, "reviewer");
  }

  lemma MisnamedLookup()
    ensures ByNameInCwd(Misnamed(), "reviewer") == None
  {
    hide ProjectDirs, UserDirs, NameOf, FindNamed;
    var w := Misnamed();
    var dirs := Scoped(ProjectDirs(w, w.chain), Project);
    MisnamedDirs(w);
    ReviewerIsNoBuiltin();
    assert InFile(MisnamedDir(), "reviewer", Project) == InFile(MisnamedDir()[1..], "reviewer", Project);
    assert InDirs(w, dirs, "reviewer") == InDirs(w, dirs[1..], "reviewer");
  }

  lemma MisnamedDirs(w: World)
    requires w == Misnamed()
    ensures Scoped(ProjectDirs(w, w.chain), Project) == [([".grok", "agents"], Project)]
    ensures UserDirs(w) == []
  {
    var root: Path := w.chain[0];
    assert root + [".grok", "agents"] == [".grok", "agents"];
    assert root + [".claude", "agents"] == [".claude", "agents"];
    assert [".claude", "agents"][0][1] != [".grok", "agents"][0][1];
    var both := [[".grok", "agents"], [".claude", "agents"]];
    assert both[1..] == [[".claude", "agents"]] && both[1..][1..] == [];
    assert Existing(w, both[1..]) == Existing(w, both[1..][1..]) == [];
    assert Existing(w, both) == [[".grok", "agents"]];
    assert w.chain[1..] == [];
    var one: seq<Path> := [[".grok", "agents"]];
    assert one[1..] == [];
    assert Scoped(one, Project) == [([".grok", "agents"], Project)] + Scoped(one[1..], Project);
  }

  lemma {:induction false} NoSuchBuiltin(bs: seq<Builtin>, name: string)
    requires forall b :: b in bs ==> NameOf(b) != name
    ensures FindNamed(bs, name).None?
  {
    if bs != [] {
      NoSuchBuiltin(bs[1..], name);
    }
  }
}
