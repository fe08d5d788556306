# A verified model of the WTH workspace's hard core

This project models, in Dafny, the parts of the repository whose behaviour is decided by state,
order or recursion, and proves what those parts promise. I/O, clocks, parsers, hashes and
signatures appear as parameters; nothing is assumed about them except where a contract says so.
`dafny verify dfyconfig.toml` checks everything.

## What is modelled

- **Dependency cycles** (`Digraph`, `Tarjan`, `CycleFinder`, `ArchRules`). `rule_cycles` is an
  iterative search for strongly connected components with an explicit work list of nodes and
  half-read child iterators. `CycleFinder.Finder` is a class with the source's fields, updated in
  place by the source's loops. Ten invariants, kept by each of the five kinds of step, show that
  what is popped is exactly one component; so the components of two or more crates are listed
  exactly, each once and in order, and the violations are those not on the allow list.
- **Layered configuration** (`Toml`, `ConfigOverride`, `Campaigns`, `Loader`, `VersionOverrides`).
  A TOML value is a tree, and `deep_merge_toml` is not associative. Everything rests on a law for
  one path: what a merge leaves at a path depends only on what was there and on how the patch
  bears on that path (says nothing, cuts it off, or sets it). `Toml.At` looks at a path without
  looking below it; values that agree there at every path are equal.
- **Waiting on a terminal** (`WaitProtocol`, `StableWait`, `RawTail`). The feeder, resizers and any
  number of waiters interleave over the terminal lock and a versioned watch that can close; the
  condition of each waiter and the grid are arbitrary. The stability wait is a timed protocol.
- **Subagents** (`Subagents`, `SubagentPlaces`). The list of visible agents against the separate lookup
  by name, and which file decides both.
- **Screen readers** (`StyledRuns`), **directory names** (`CwdNames`), **the editor's JSON-RPC
  connection** (`LineBridge`), **atomic replacement** (`AtomicWrite`), **the managed-policy gate**
  (`ManagedPolicy`).

`Orders` (stable sorting, listings of finite sets), `Sequences` (filters, first elements of each key), `Text`
(trimming) and `Wrappers` hold what several of them share.

Rust's `&mut toml::Value` gives its holder the only access to a value, so the merge and overlay
methods take the value and return the new one; their loops are the source's loops.

## What the proofs show about the code

- *Dismissal.* The restored value holds for every path of the written list, because ids are
  filtered after the first-id-wins merge (`Loader.ConfigLayers.DismissalRestores`).
- *Grouping.* Merging the fold of the requirements in one go is not what `reapply_requirements`
  does (`Loader.OneGoDiffers`); three layers may be grouped either way exactly when no path
  resurfaces (`Toml.GroupingIff`). What the fold reports still stands in the effective config.
- *Visible is callable.* The comment in `merge_subagents` states it without exception. It fails for
  exactly one kind of entry: a user-level or bundled agent named like any built-in agent, because
  the list protects three names and the lookup prefers all of them
  (`Subagents.VisibleIsCallable`; `Subagents.ShadowingIsNotCallable` is such an agent). It also needs
  the files of that name to be named after their agents (`Subagents.MisnamedFileIsNotCallable`); other
  files do not matter.
- *Ended waits.* A resize after the feeder is gone bumps nothing, so an `ended` outcome can be
  reported although the condition has become true (`WaitProtocol.LateResizeIsMissed`). With no such
  resize since the last check it means that the condition fails on the final grid, which holds every
  chunk received; with one, some
  session runs the same way and the outcome is wrong (`WaitProtocol.LostResizeCanMislead`).
- *Quiet waits.* `wait_stable` promises that the grid was unchanged for a window, and watches bumps.
  A match can hide a change in three ways: the waiter is polled late, so that timer and change
  branch are both ready and `select!` picks either (`StableWait.LateTimerHidesBump`); the bump for a
  change is still owed (`StableWait.OwedBumpIsMissed`); or a resize after the sender is gone is
  never announced (`StableWait.LateResizeIsMissed`). With the change branch not ready as the timer
  is taken, the grid is unchanged since the mark exactly when as many changes are owed a bump or
  lost as at the mark (`StableWait.MatchIsUnchangedIff`). The comment in `wait_stable` says that
  after the sender is dropped the remaining window always completes. The code starts a full window
  instead, which can outlast the deadline (`StableWait.ClosureDecides`,
  `StableWait.ClosureCutsShort`).
- *Line framing.* `handleServerLine` throws on the line `null`, which leaves later lines of the same
  chunk in the buffer until more output comes. The handled lines are independent of chunking exactly
  when no complete line but the last is `null` (`LineBridge.ChunkingIsHarmlessIff`,
  `LineBridge.NullHoldsUpLines`).
- *Restarts.* `buffer` and `pending` outlive a child. If the old child is silent once the next one
  starts, the next child's output is framed by its own newlines exactly when what was left held no
  line, and that output has none either or what was left is white space
  (`LineBridge.LeftoverIsHarmlessIff`, `LineBridge.LeftoverGarblesLine`). But `stopSession` does not
  wait for the exit, and the old child's late output goes to the same buffer. It is harmless,
  whatever the new child goes on to write, exactly when it is empty or falls between two lines of
  the new child and ends between two of its own (`LineBridge.LateOutputIsHarmlessIff`,
  `LineBridge.LateOutputGarblesLine`). The old child's late `exit`, too, lets go of the new child
  (`LineBridge.Bridge.ChildExits`).
- *Cursor.* When a cursor character is asked for, the plain reader drops the combining characters
  of the cell under the cursor and the styled reader keeps them (`StyledRuns.CursorHidesMark`). What
  the two return agrees exactly unless those marks, or something right of the cursor, are more than
  white space (`StyledRuns.LineAgrees`, `StyledRuns.ScreensAgree`).
- *Decoding.* A fresh directory leads back to its working directory exactly when the path is
  absolute (short names) or has no white space at its ends (hashed names)
  (`CwdNames.FreshRoundTrip`, `CwdNames.LostDirectories`). A record whose writing stopped early is taken
  for complete by every later call, and the directory never leads back (`CwdNames.TornRecordStays`).
- *Edits of the policy cache.* The gate stops at the first file that is wrong or unreadable, so with
  `managed_config.toml` unreadable an edited `requirements.toml` is not refused
  (`ManagedPolicy.MaskedEditIsNotRefused`); such an edit is always fetched again
  (`ManagedPolicy.HiddenEditsAreRefetched`). `ManagedPolicy.EditsAreRefused` says exactly which are
  refused.
- *Refusal and refetch.* A session can be refused while the cache is not hard-stale, exactly when
  there is no policy on disk and the marker recorded none and fits the identity
  (`ManagedPolicy.RefusalTriggersRefetchIff`). Then only the background timer asks for a refetch
  (`ManagedPolicy.RefusedNotHardStale`, `ManagedPolicy.RefusedUntilTimer`).
- *Cleanup.* `write_atomically` removes the temporary file after any failure, `create_new` included.
  That never takes a file from a writer still at work (`AtomicWrite.CleanupSparesTheLive`), but it
  can take the file that a dead process with the same id left (`AtomicWrite.CleanupTakesDeadFile`).

## Model

| member | source | states |
|---|---|---|
| ArchRules.EdgesAreDependencies | scripts/arch/check_arch.py:322-323 | An edge of the dependency graph is a declared path dependency on another crate of the workspace, never on the crate's own name; every edge stays in the graph. |
| ArchRules.FindCycles | scripts/arch/check_arch.py:470-521 | For every finite graph the sorted components are exactly its strongly connected components of two or more nodes, each once, members in order, components in lexicographic order. |
| ArchRules.RuleCycles | scripts/arch/check_arch.py:470-538 | The violations come, in order, one from each listed cycle that is not allowed: for names without `~`, cutting the key at `~` gives the members back, an entry allows a cycle exactly when cutting it does, the message lists the members, and the paths are their manifests, member by member. |
| ArchRules.EmitExact | scripts/arch/check_arch.py:521-538 | A violation is reported exactly for each listed cycle whose key is not on the allow list. |
| ArchRules.EmitReports | scripts/arch/check_arch.py:521-538 | The order and number of the violations: `picks` are the positions of the reported cycles, increasing, and exactly those that no allow entry cuts into. |
| ArchRules.JoinCuts | scripts/arch/check_arch.py:523-525 | Cutting a joined list at the separator gives the list back, in order, if no part holds the separator. |
| ArchRules.CutJoins | scripts/arch/check_arch.py:523-525 | Joining what was cut gives the text back, so a key stands for one list only. |
| ArchRules.JoinExtends | scripts/arch/check_arch.py:523-525 | One more part goes on the right, behind one separator. |
| ArchRules.JoinPair | scripts/arch/check_arch.py:523-525 | The key of two crates is the one, `~`, and the other. |
| ArchRules.ManifestsInOrder | scripts/arch/check_arch.py:535 | One manifest path for each member, in the order of the members. |
| ArchRules.SameCycleIffMutual | scripts/arch/check_arch.py:470-538 | Two different crates share a listed cycle exactly when each reaches the other along dependency edges. |
| ArchRules.ComponentsAreCycles | scripts/arch/check_arch.py:514-519 | Once every node is numbered and the stack is empty, the recorded components are exactly the cycles, each recorded once. |
| CycleFinder.Finder.constructor | scripts/arch/check_arch.py:472-478 | An unstarted search satisfies the invariant. |
| CycleFinder.Finder.Number | scripts/arch/check_arch.py:482-485 | A new node gets the counter as its number and `low`, and goes on top of the stack. |
| CycleFinder.Finder.Begin | scripts/arch/check_arch.py:480-485 | Opening a search at an unnumbered node keeps the invariant. |
| CycleFinder.Finder.Descend | scripts/arch/check_arch.py:490-497 | Going down to an unnumbered child keeps the invariant and numbers that child. |
| CycleFinder.Finder.Skip | scripts/arch/check_arch.py:498-499 | Reading a numbered child keeps the invariant and consumes just that child. |
| CycleFinder.Finder.Finish | scripts/arch/check_arch.py:502-515 | Dropping the top frame, and popping its component if it is the root of one, keeps the invariant. |
| CycleFinder.Finder.PopMembers | scripts/arch/check_arch.py:507-513 | The popping loop takes exactly the nodes from the given one up, each once, off the stack and off `on_stack`. |
| CycleFinder.Finder.PopComponent | scripts/arch/check_arch.py:506-515 | What is popped is recorded as a group, and as a sorted component if it has several members. |
| CycleFinder.Finder.StrongConnect | scripts/arch/check_arch.py:480-515 | The whole search from one node terminates, on unnumbered nodes and unread children, with the invariant kept and the work list and stack empty. |
| CycleFinder.Finder.Idle | scripts/arch/check_arch.py:517-519 | Between searches nothing is stacked, and each numbered node was numbered once. |
| CycleFinder.Finder.Run | scripts/arch/check_arch.py:517-519 | The driver numbers every node exactly once and leaves the popped groups as the components of the whole graph. |
| CycleFinder.RetireOutcome | scripts/arch/check_arch.py:502-515 | Dropping the top frame leaves its own `low` alone; if that equals its number, the nodes from it up are exactly one component and popping them keeps the invariant; otherwise the invariant holds without popping. |
| CycleFinder.ListingsContents | scripts/arch/check_arch.py:514-515 | The recorded components are the sorted member lists of the popped groups of two or more. |
| CycleFinder.ListingsDistinct | scripts/arch/check_arch.py:514-515 | Disjoint groups give different components. |
| Tarjan.StartKeepsInv | scripts/arch/check_arch.py:480-485 | Starting from an idle state keeps the ten invariants: numbers, stack and `on_stack`, the open path, exploredness, reachability down and up the stack, and the bounds and witness of `low`. |
| Tarjan.VisitKeepsInv | scripts/arch/check_arch.py:490-497 | Visiting a new child keeps them. |
| Tarjan.ReadKeepsInv | scripts/arch/check_arch.py:498-499 | Reading a numbered child keeps them. |
| Tarjan.RetireKeepsInv | scripts/arch/check_arch.py:502-505 | Dropping a frame that is no component's root keeps them. |
| Tarjan.PopKeepsInv | scripts/arch/check_arch.py:502-513 | Dropping a root's frame together with its component keeps them. |
| Tarjan.StackReachesTop | scripts/arch/check_arch.py:500-506 | At a root, every node stacked above it reaches back to it. |
| Tarjan.PopClosed | scripts/arch/check_arch.py:500-506 | At a root, no edge leads from the nodes about to be popped to the stack below. |
| Tarjan.PopsScc | scripts/arch/check_arch.py:506-513 | What is popped at a root is one whole strongly connected component. |
| Tarjan.PopGroups | scripts/arch/check_arch.py:506-513 | The popped groups, singletons included, stay disjoint components that cover exactly the nodes numbered and no longer stacked. |
| Orders.SortedUnique | crates/codegen/wth-config/src/version_overrides.rs:88-90 | Without ties, sorting leaves no choice: sorted lists with the same elements are equal. |
| Orders.SortStable | crates/codegen/wth-config/src/version_overrides.rs:88-90 | Sorting keeps elements of equal rank in their declared order. |
| Orders.SortOfDistinct | scripts/arch/check_arch.py:515-521 | Sorting different elements gives the one increasing listing of their set. |
| Toml.DeepMerge | crates/codegen/wth-config/src/loader.rs:416-430 | The key-by-key loop leaves the functional merge, whatever order the keys are visited in. |
| Toml.PathLaw | crates/codegen/wth-config/src/loader.rs:416-430 | The value at any path after a merge is a function of the value there before and of how the overriding value bears on the path: kept, gone under a non-table, or merged with what is set there. |
| Toml.MergeAt | crates/codegen/wth-config/src/loader.rs:416-430 | Looking no deeper than one path, a layer either leaves the node as it was or fixes it regardless of the base. |
| Toml.MergeAllAt | crates/codegen/wth-config/src/loader.rs:234-248 | The same for a list of layers. |
| Toml.OverlayAllFixesOrPasses | crates/codegen/wth-config/src/loader.rs:234-248 | A list of layers passes a node on if none bears on it; otherwise the result does not depend on what was there. |
| Toml.MergeAllIdempotent | crates/codegen/wth-config/src/loader.rs:288-299 | Merging the same list of layers a second time changes nothing, even where tables and scalars alternate at one key. |
| Toml.MergeAllLocal | crates/codegen/wth-config/src/loader.rs:288-310 | What a list of layers makes of a path depends only on the value there before. |
| Toml.MergeAllFrame | crates/codegen/wth-config/src/config_override.rs:47-52 | Layers that do not touch a path leave the whole value there unchanged. |
| Toml.LastBearingDecides | crates/codegen/wth-config/src/loader.rs:234-248 | The last layer that bears on a path decides the node there. |
| Toml.LayersWin | crates/codegen/wth-config/src/loader.rs:284-299 | Every node of the layers' own fold stands when the layers are merged on top of any base. |
| Toml.GroupingIff | crates/codegen/wth-config/src/loader.rs:416-430 | The two groupings of three merges are equal exactly when no path is cut by the middle one, forgotten by the merge of the upper two, and present in the base. |
| ConfigOverride.TakePatchArray | crates/codegen/wth-config/src/config_override.rs:16-46 | The key is removed from the root whether or not decoding succeeds; all elements are decoded, or none; unknown fields become the patch. |
| ConfigOverride.TakenExactly | crates/codegen/wth-config/src/config_override.rs:16-46 | A missing key gives no entries, a value that is no array fails, and so does exactly an array with an element that is no table or does not decode; otherwise there is one entry for each element, in order, with every field that is not known as its patch. |
| ConfigOverride.PatchTouchesPath | crates/codegen/wth-config/src/config_override.rs:53-71 | The walk answers yes exactly when merging the patch can matter at the path: it sets a value there or puts a non-table above it. |
| ConfigOverride.TouchesIffMatters | crates/codegen/wth-config/src/config_override.rs:49-72 | A patch touches exactly the paths below the root at which merging it changes the value of some config. |
| ConfigOverride.ApplyPatches | crates/codegen/wth-config/src/config_override.rs:86-97 | The patches are merged in order, each without the stripped keys. |
| ConfigOverride.StripBears | crates/codegen/wth-config/src/config_override.rs:78-82 | Stripping silences a patch below the stripped keys and nowhere else. |
| ConfigOverride.StrippedKeysStay | crates/codegen/wth-config/src/config_override.rs:78-97 | No list of patches changes, adds or removes anything at or below a stripped root key. |
| ConfigOverride.WithoutBears | crates/codegen/wth-config/src/config_override.rs:16-26 | Taking an array off a layer changes how it bears on no other root key. |
| Campaigns.BuildCampaignEntries | crates/codegen/wth-config/src/campaigns.rs:45-72 | The loop keeps the usable entries in order. |
| Campaigns.BuiltExactly | crates/codegen/wth-config/src/campaigns.rs:45-72 | Exactly the entries whose id is more than white space and whose patch is not empty survive, each once, in order, with the id trimmed. |
| Text.TrimCuts | crates/codegen/wth-config/src/campaigns.rs:52-56 | Trimming cuts white space off both ends and stops at the first other character. |
| Campaigns.MergeCampaignEntries | crates/codegen/wth-config/src/campaigns.rs:75-87 | The nested loops leave the first entry of each id of the concatenated sources. |
| Campaigns.FirstByIdPicks | crates/codegen/wth-config/src/campaigns.rs:74-87 | The merged list is, in order, exactly the entries that no earlier entry shares its id with. |
| Campaigns.FirstByIdDistinct | crates/codegen/wth-config/src/campaigns.rs:74-87 | Merged ids are distinct, and no id is lost. |
| Campaigns.SourcePriority | crates/codegen/wth-config/src/campaigns.rs:74-87 | For any number of sources, an id keeps its first entry of the first source that has it. |
| Campaigns.ActivePicks | crates/codegen/wth-config/src/campaigns.rs:89-98 | The active campaigns are exactly those of the merged list whose id was not dismissed, each once and in order. |
| Campaigns.DismissedLeavesUntouched | crates/codegen/wth-config/src/campaigns.rs:90-108 | After dismissing what touches the given paths, no active campaign touches any of them, and none is new. |
| Campaigns.DismissesOnlyTouching | crates/codegen/wth-config/src/campaigns.rs:90-108 | Dismissal keeps every active campaign that touches none of the paths. |
| Campaigns.ApplyActiveCampaignPatches | crates/codegen/wth-config/src/campaigns.rs:112-118 | The patches are merged lowest priority first, without the stripped keys. |
| Campaigns.UntouchedByCampaigns | crates/codegen/wth-config/src/campaigns.rs:112-118 | Campaigns that do not touch a path leave the whole value there. |
| Campaigns.FirstTouchingDecides | crates/codegen/wth-config/src/campaigns.rs:110-118 | The first active campaign that touches a path decides the node there: its own value, or nothing under its non-table. |
| Loader.ConfigLayers.EffectiveConfigBase | crates/codegen/wth-config/src/loader.rs:234-248 | The base is the fold of the six layers, absent ones left out. |
| Loader.ConfigLayers.HighestLayerDecides | crates/codegen/wth-config/src/loader.rs:233-248 | The highest layer that bears on a path decides the node there. |
| Loader.ConfigLayers.ResolveCampaigns | crates/codegen/wth-config/src/loader.rs:269-282 | The active campaigns, which `KillSwitchIsBase` and `ActiveExactly` describe from the switch and the sources. |
| Loader.ConfigLayers.ActiveExactly | crates/codegen/wth-config/src/loader.rs:269-282 | Unless the environment switch is `Some(false)` or the base holds boolean `false` at `features.campaigns`, the active campaigns are exactly the undismissed ones of the five sources' merge, in order. |
| Loader.ConfigLayers.SlicePriority | crates/codegen/wth-config/src/loader.rs:250-264 | Ids resolve in the order requirements, remote, user, managed, system managed. |
| Loader.ConfigLayers.HighestTierDecides | crates/codegen/wth-config/src/loader.rs:234-248 | In the base, of the requirements tiers mdm, system and user the highest that bears on a path decides the node there. |
| Loader.ConfigLayers.HighestTierCampaign | crates/codegen/wth-config/src/loader.rs:202-217 | Requirements campaigns collected highest tier first resolve by the same precedence: an id keeps its first entry in the highest tier that has it, over every other source. |
| Loader.ConfigLayers.ReapplyRequirements | crates/codegen/wth-config/src/loader.rs:288-299 | The requirements layers that are present are merged on top, one by one. |
| Loader.ConfigLayers.ApplyCampaignOverrides | crates/codegen/wth-config/src/loader.rs:303-310 | Campaign patches first, requirements on top. |
| Loader.ConfigLayers.EffectiveConfigWithCampaigns | crates/codegen/wth-config/src/loader.rs:315-324 | The effective config: base, campaigns resolved against the base, overlay, requirements. |
| Loader.ConfigLayers.ReapplyFixesBase | crates/codegen/wth-config/src/loader.rs:288-299 | Re-applying the requirements to the base changes nothing. |
| Loader.ConfigLayers.NoActiveIsBase | crates/codegen/wth-config/src/loader.rs:315-324 | With no active campaign the effective config equals the base. |
| Loader.ConfigLayers.KillSwitchIsBase | crates/codegen/wth-config/src/loader.rs:348-358 | With the environment switch `Some(false)`, or boolean `false` at `features.campaigns` in the base, the effective config equals the base. |
| Loader.ConfigLayers.UntouchedAgreesWithBase | crates/codegen/wth-config/src/loader.rs:303-324 | Where no active campaign touches a path, the effective config holds the base's whole value there. |
| Loader.ConfigLayers.DismissalRestores | crates/codegen/wth-config/src/campaigns.rs:100-108 | For any layers, remote campaigns, dismissed ids and written paths: dismissing the ids that touch them makes the effective config agree with the base at each. |
| Loader.ConfigLayers.RequirementsWin | crates/codegen/wth-config/src/loader.rs:284-310 | Every node in the fold of the requirements stands in the effective config, whatever is active. |
| Loader.ConfigLayers.CampaignDecides | crates/codegen/wth-config/src/loader.rs:250-324 | Where the requirements say nothing, the first active campaign that touches a path decides the node there. |
| Loader.LoadMergedRequirements | crates/codegen/wth-config/src/validation.rs:100-107 | The loop folds the layers, starting from the first. |
| Loader.LastLayerReported | crates/codegen/wth-config/src/validation.rs:98-107 | What is reported at a path is what the last layer that bears on it decides; without layers nothing is. |
| Loader.ReportedRequirementsHold | crates/codegen/wth-config/src/validation.rs:98-107 | What the requirements-only fold reports outside `campaigns` is what the effective config holds. |
| Loader.OneGoDiffers | crates/codegen/wth-config/src/loader.rs:284-299 | A concrete base and two layers for which merging the fold in one go gives a different config. |
| VersionOverrides.ApplyVersionOverrides | crates/codegen/wth-config/src/version_overrides.rs:54-106 | Either every bound parses and the stripped config is merged with the in-range patches in sorted order, or the result is the stripped config and the error names the first bad bound. |
| VersionOverrides.SectionReads | crates/codegen/wth-config/src/version_overrides.rs:58-86 | The section of a file is accepted exactly if every element can be read: bounds missing or strings whose trimmed text is a version, 0.0.0 for a missing minimum; and then each element, in order, gives its bounds and its other keys as the patch. |
| VersionOverrides.HighestMinimumDecides | crates/codegen/wth-config/src/version_overrides.rs:88-105 | At any path outside the stripped sections, of the entries as declared that touch it and hold the running version between their bounds, both included, the one with the highest minimum decides, and of equal minimums the last declared. |
| VersionOverrides.NoneAppliesKeeps | crates/codegen/wth-config/src/version_overrides.rs:92-105 | Where no entry that holds the running version touches a path, the config keeps its value. |
| VersionOverrides.ParsesIffAllBoundsParse | crates/codegen/wth-config/src/version_overrides.rs:62-86 | The entries are accepted exactly when each one's bounds parse. |
| VersionOverrides.AppliedInOrder | crates/codegen/wth-config/src/version_overrides.rs:88-90 | The order of application is a permutation sorted by minimum in which ties keep their declared order. |
| VersionOverrides.LastSelectedDecides | crates/codegen/wth-config/src/version_overrides.rs:88-103 | The last in-range patch in application order that touches a path decides the node there. |
| VersionOverrides.SectionGone | crates/codegen/wth-config/src/version_overrides.rs:52-58 | No patch brings the section back or changes the config's own `campaigns`. |
| VersionOverrides.ReorderingIsHarmless | crates/codegen/wth-config/src/version_overrides.rs:88-103 | Entries with pairwise different minimums may be reordered without changing the result. |
| VersionOverrides.ReorderedSection | crates/codegen/wth-config/src/version_overrides.rs:54-106 | The same for the array in the file: any reordering is accepted or refused alike and, with different minimums, gives the same config. |
| WaitProtocol.StepKeepsInv | crates/codegen/ptyctl/src/wait.rs:97-128 | Each step of the feeder, a resizer or a waiter keeps the invariant that a parked waiter whose generation is current was checked against the current grid, or a bump is owed. |
| WaitProtocol.RunKeepsInv | crates/codegen/ptyctl/src/session.rs:155-173 | So does every interleaving of any number of waiters. |
| WaitProtocol.NoLostWakeup | crates/codegen/ptyctl/src/wait.rs:97-128 | A parked waiter whose condition holds on the grid that the run drew can go back to its loop at once or is owed a bump, unless a resize since its check went unannounced. |
| WaitProtocol.OwedBumpIsNext | crates/codegen/ptyctl/src/session.rs:165-172 | Whoever owes a bump has a next step that nobody can block, which bumps or leads up to it, or finds the sender gone. |
| WaitProtocol.MatchedMeansMet | crates/codegen/ptyctl/src/wait.rs:98-117 | A matched outcome: the condition held on the grid drawn by all chunks fed and resizes made before the waiter's last check. |
| WaitProtocol.EndedMeansNeverMet | crates/codegen/ptyctl/src/wait.rs:118-124 | An `ended` outcome: the condition failed on the grid drawn before the waiter's last check, which had been fed every chunk ever received, in order; none was received after it; and unless a resize went unannounced since, that is still the grid. |
| WaitProtocol.GridIsDrawn | crates/codegen/ptyctl/src/session.rs:155-173 | In every run the grid is the fold of its changes over the first grid: each feed puts on it the chunk received last, each resize resizes it, nothing else changes it; and the chunks fed are those received, in order, up to one not yet fed. |
| WaitProtocol.CheckDecides | crates/codegen/ptyctl/src/wait.rs:101-117 | A check matches exactly when the condition holds on the grid drawn so far, and parks the waiter otherwise. |
| WaitProtocol.TurnDecides | crates/codegen/ptyctl/src/wait.rs:98-117 | With the terminal free, a waiter's turn runs through and ends in a match exactly when its condition holds, and else parked with the latest bump seen. |
| WaitProtocol.ClosedWaiterEnds | crates/codegen/ptyctl/src/wait.rs:118-126 | Once the session is closed, a parked waiter that no bump woke ends as `ended`, with the screen it then sees. |
| WaitProtocol.ScreenIsDrawn | crates/codegen/ptyctl/src/wait.rs:168-194 | The screen of an unmatched outcome is the grid drawn by all chunks fed and resizes made before the waiter's snapshot. |
| WaitProtocol.AfterTheEnd | crates/codegen/ptyctl/src/session.rs:272-283 | After the feeder's end nothing is fed or bumped, and each later change of the grid is an unannounced resize. |
| WaitProtocol.LateResizeIsMissed | crates/codegen/ptyctl/src/session.rs:272-283 | A run in which a late resize makes the condition true and the waiter still reports `ended`. |
| WaitProtocol.LostResizeCanMislead | crates/codegen/ptyctl/src/session.rs:272-283 | The proviso of `EndedMeansNeverMet` is exact for schedules: for any run that loses a resize after the check, the same events are a run of another session whose condition holds on the final grid although the outcome is `ended`. |
| StableWait.MatchIsUnchangedIff | crates/codegen/ptyctl/src/wait.rs:131-164 | In every run, for a match: no chunk was fed and no resize made between the waiter's mark and the taking of its timer exactly when announced, owed and lost changes add up to what they were at the mark; with the change branch not ready, exactly when owed and lost changes do. |
| StableWait.MatchIsQuietIff | crates/codegen/ptyctl/src/wait.rs:138-164 | In every run, for a match: no bump came between the mark and the taking of the timer exactly when the change branch was not ready as the timer was taken. |
| StableWait.StableMeansUnchanged | crates/codegen/ptyctl/src/wait.rs:131-164 | In every run a match comes at least a window after it was armed, the window ending by the deadline, and later only by time the waiter lost; no change of the grid fell in between if the sums of announced and silent changes agree, no bump if the generations do, and any bump in between came only as long before the match as the waiter was late. |
| StableWait.LateTimerHidesBump | crates/codegen/ptyctl/src/wait.rs:146-159 | For any window and deadline that leave room: runs of a waiter polled late that matches although a bump fell into its window. |
| StableWait.OwedBumpIsMissed | crates/codegen/ptyctl/src/session.rs:165-172 | For any window and deadline that leave room: runs of a waiter that loses no time and matches over a chunk fed in its window, whose bump is still owed. |
| StableWait.LateResizeIsMissed | crates/codegen/ptyctl/src/session.rs:272-283 | For any window and deadline that leave room: runs of a waiter that loses no time and matches over a resize made after the sender was found gone. |
| StableWait.StepKeeps | crates/codegen/ptyctl/src/wait.rs:138-164 | Each step of the feeder, a resizer, the clock or the waiter keeps the account of changes (announced, owed or lost) and what is known of the current window: when and why it started, and which changes and bumps came before and after. |
| StableWait.LostTime | crates/codegen/ptyctl/src/wait.rs:138-164 | The time a waiter is said to lose is exactly the units of time at whose start it had a step to take. |
| StableWait.DecidedByDeadline | crates/codegen/ptyctl/src/wait.rs:131-164 | In every run the wait is decided by the deadline but for the time that the waiter lost with a step to take, and never times out before it. |
| StableWait.TimeOutMeansActivity | crates/codegen/ptyctl/src/wait.rs:138-164 | In every run, with the sender alive, a time-out means that the window exceeds the wait or that a bump came too late for a whole window, give or take the time that the waiter lost. |
| StableWait.ClosureDecides | crates/codegen/ptyctl/src/wait.rs:138-164 | In every run, once the sender is found gone: a match means that a full new window fitted before the deadline, and if it fits after the time that the waiter lost, there is a match. |
| StableWait.ClosureCutsShort | crates/codegen/ptyctl/src/wait.rs:138-149 | Runs without any change, of a waiter that loses no time, in which the window would have fitted exactly, but closure restarts it and the wait times out. |
| RawTail.Tail.Push | crates/codegen/ptyctl/src/wait.rs:202-213 | Both branches leave the last 2048 bytes of what was kept followed by the chunk. |
| RawTail.Tail.PushAll | crates/codegen/ptyctl/src/session.rs:158-164 | Any sequence of chunks, in any split, leaves the last 2048 bytes of what was kept followed by their concatenation. |
| RawTail.TailOfTail | crates/codegen/ptyctl/src/wait.rs:202-213 | The bytes evicted are never needed again. |
| RawTail.LastBytesEnd | crates/codegen/ptyctl/src/wait.rs:202-213 | The last bytes of a text are its end, as many as there may be. |
| Subagents.UserAgentDirs | crates/codegen/wth-agent/src/discovery.rs:196-224 | The user and bundled directories, with the legacy home only when it differs. |
| Subagents.LoadDefinitionsFromDir | crates/codegen/wth-agent/src/discovery.rs:629-663 | Adds the directory's definitions whose names are new, and remembers the names. |
| Subagents.DiscoverWithHome | crates/codegen/wth-agent/src/discovery.rs:231-248 | Discovery leaves the first definition of each name over all directories; `SubagentPlaces.NearestIsListed` and `SubagentPlaces.PlaceIsListed` say by path which one that is. |
| Subagents.MergeSubagents | crates/codegen/wth-agent/src/discovery.rs:92-181 | The loop over definitions, with in-place replacement of entries, then the toggles. |
| Subagents.LookupByNameInCwd | crates/codegen/wth-agent/src/discovery.rs:258-305 | Project files first, then any built-in, then user and bundled files; `SubagentPlaces.NearestIsCalled` and `SubagentPlaces.PlaceIsCalled` say by path which file that is. |
| Subagents.InDirsIsFirstCandidate | crates/codegen/wth-agent/src/discovery.rs:574-627 | If in every directory the parsing files called `name.md` are those of the agent `name`, looking the name up by file over a list of directories finds the first definition that reading those directories whole gives for it. |
| Subagents.DiscoveredAsCandidates | crates/codegen/wth-agent/src/discovery.rs:231-248 | Discovered names are distinct, and each stands for its first project definition, or else its first user or bundled one. |
| Subagents.UserBeforeBundled | crates/codegen/wth-agent/src/discovery.rs:196-224 | Of the same name, a user file comes before any bundled one. |
| Subagents.LookupPrecedence | crates/codegen/wth-agent/src/discovery.rs:121-123 | With the files of that name named after their agents: lookup answers from a project file if one has the name, else from a built-in, else from a user file, else from a bundled one, else not at all. |
| Subagents.MergedAsExpected | crates/codegen/wth-agent/src/discovery.rs:92-181 | For any list of definitions, repeated names included, the merged list has one entry for each name: the whole entry of its best definition, or the launchable built-in's own. |
| Subagents.VisibleIsCallable | crates/codegen/wth-agent/src/discovery.rs:92-305 | With the files of its name named after their agents, a visible entry resolves by name to a definition of its own scope, description and config source exactly unless it is a user-level or bundled agent named like a built-in; for any other files, parse failures and toggles. Visible names are distinct. |
| Subagents.ShadowingIsNotCallable | crates/codegen/wth-agent/src/discovery.rs:128-141 | Such an agent: a user-level `codex` is listed, and calling it gives the built-in `codex`. |
| Subagents.CallableIsVisible | crates/codegen/wth-agent/src/discovery.rs:92-305 | With the files of that name named after their agents: a name is listed exactly when it is on, not empty, resolves, and is not merely a built-in that cannot be launched. |
| Subagents.MisnamedFileIsNotCallable | crates/codegen/wth-agent/src/discovery.rs:574-663 | An agent whose file name differs from its own name is listed but cannot be looked up. |
| SubagentPlaces.NearestIsCalled | crates/codegen/wth-agent/src/discovery.rs:567-590 | If the first directory of the chain, working directory first, whose `.grok/agents` or `.claude/agents` has a file `name.md` that parses is the `i`-th, lookup gives that file, `.grok` before `.claude`. |
| SubagentPlaces.NearestIsListed | crates/codegen/wth-agent/src/repo.rs:95-110 | The visible list has one entry for that name, for the same file: its description, scope, config source and the built-in it shadows. |
| SubagentPlaces.PlaceIsCalled | crates/codegen/wth-agent/src/discovery.rs:196-224 | Without a project file, lookup gives the built-in of that name, or else the file in the first of: the configured home's `agents`, `~/.grok/agents` where that is another home, `~/.claude/agents`, and `bundled/agents` of the two; or else nothing. |
| SubagentPlaces.PlaceIsListed | crates/codegen/wth-agent/src/discovery.rs:121-141 | Without a project file, the visible list has the built-in's own entry for a launchable name, and for any other the entry of the first of those files, or none. |
| SubagentPlaces.ListedFiles | crates/codegen/wth-agent/src/discovery.rs:629-663 | Discovery takes from a directory exactly what its files with the extension `md` parse as. |
| SubagentPlaces.BestIsHighest | crates/codegen/wth-agent/src/discovery.rs:96-164 | Of several definitions of one name that may be listed, the merge keeps a project one before a user one before a bundled one, and the earliest of those. |
| SubagentPlaces.MergedInOrder | crates/codegen/wth-agent/src/discovery.rs:105-181 | The list starts with `general-purpose`, `explore` and `plan`; the other names follow in the order discovery found them. |
| SubagentPlaces.EveryBuiltinFound | crates/codegen/wth-agent/src/discovery.rs:263-266 | Every built-in agent is found by its own name and by no other. |
| Subagents.EnabledContents | crates/codegen/wth-agent/src/discovery.rs:176-180 | The toggles leave exactly the entries whose name is on or has no toggle, in order. |
| StyledRuns.ResolveRange | crates/codegen/ptyctl/src/term.rs:349-358 | The resolved bounds hold exactly the lines on the screen that the range, counted from 1 and inclusive, asks for. |
| StyledRuns.AddCell | crates/codegen/ptyctl/src/styled.rs:122-141 | One cell either flushes the collected run and starts another, or extends it. |
| StyledRuns.CollectRuns | crates/codegen/ptyctl/src/styled.rs:91-149 | The loop yields the coalesced runs of the row's cells less spacers. |
| StyledRuns.ExtractStyledLine | crates/codegen/ptyctl/src/styled.rs:91-163 | The same, less the trailing blank runs of default colours and weight. |
| StyledRuns.CoalesceLossless | crates/codegen/ptyctl/src/styled.rs:91-149 | Expanding the runs gives back every character with its style; runs are not empty and neighbours differ. |
| StyledRuns.CoalesceUnique | crates/codegen/ptyctl/src/styled.rs:91-149 | There is no other list of runs of that kind for the same cells. |
| StyledRuns.TrimRunsCuts | crates/codegen/ptyctl/src/styled.rs:151-157 | Trimming cuts a suffix of runs that are white space, without foreground or background colour and not bold, and stops at the first run that is not all of these. |
| StyledRuns.TrimRunsText | crates/codegen/ptyctl/src/styled.rs:151-157 | Trimming loses only white space at the end. |
| StyledRuns.PlainIsPaintedIff | crates/codegen/ptyctl/src/term.rs:249-310 | Both readers show the same characters of a row exactly unless the cursor character hides combining characters. |
| StyledRuns.LineAgrees | crates/codegen/ptyctl/src/styled.rs:91-163 | A line's runs and its plain text agree up to white space at the end exactly unless the cursor character drops combining characters and those, or the text right of the cursor, are more than white space. |
| StyledRuns.CursorHidesMark | crates/codegen/ptyctl/src/term.rs:249-310 | A cell on which they differ: an accented letter under the cursor character. |
| StyledRuns.ReadPlainRow | crates/codegen/ptyctl/src/term.rs:249-310 | The plain reader's inner loop. |
| StyledRuns.OneCell | crates/codegen/ptyctl/src/term.rs:271-290 | What one cell adds to each reader's line: nothing for a spacer; else its character, or the cursor character in its place, and its combining characters, which the plain reader leaves out under the cursor character. |
| StyledRuns.PaintSplits | crates/codegen/ptyctl/src/styled.rs:91-149 | A painted row is its cells' paint, left to right. |
| StyledRuns.PlainSplits | crates/codegen/ptyctl/src/term.rs:249-310 | A plain row is its cells' text, left to right. |
| StyledRuns.ScreenContent | crates/codegen/ptyctl/src/term.rs:249-310 | The plain screen: rows in range, blank rows at the end dropped unless asked for, each right-trimmed. |
| StyledRuns.ScreenStyled | crates/codegen/ptyctl/src/term.rs:313-339 | The styled screen: rows in range, empty rows at the end dropped unless asked for. |
| StyledRuns.PlainLinesAre | crates/codegen/ptyctl/src/term.rs:249-310 | Line by line: the plain screen holds the rows asked for, in order and right-trimmed; unless empty lines are wanted it ends with a line that is not blank, and every row left out below is blank. |
| StyledRuns.StyledLinesAre | crates/codegen/ptyctl/src/term.rs:313-339 | Line by line: the styled screen holds the trimmed runs of the rows asked for, in order; unless empty lines are wanted its last row is not empty, and every row left out below is. |
| StyledRuns.ScreensAgree | crates/codegen/ptyctl/src/term.rs:249-339 | Each plain line is the right-trimmed text of the styled line in its place, and styled lines beyond the last plain one show only white space, exactly when on no row asked for the cursor character drops marks that would show. |
| CwdNames.UrlRoundTrip | crates/codegen/wth-config/src/paths.rs:123-146 | Percent-decoding undoes percent-encoding, for all byte strings. |
| CwdNames.EncodedByte | crates/codegen/wth-config/src/paths.rs:123-127 | Letters, digits, `-`, `.`, `_` and `~` stand for themselves; any other byte is a percent sign and its two digits in upper-case hexadecimal. |
| CwdNames.EncodesByteByByte | crates/codegen/wth-config/src/paths.rs:123-127 | A text is encoded byte by byte, in order. |
| CwdNames.Slugify | crates/codegen/wth-config/src/paths.rs:199-213 | The loop keeps letters and digits, turns each run of anything else into one dash, trims dashes and truncates. |
| CwdNames.CollapseExact | crates/codegen/wth-config/src/paths.rs:199-211 | Collapsing keeps every letter and digit in order, never puts two dashes together, and ends in a dash exactly when the input ends in something else. |
| CwdNames.SlugShape | crates/codegen/wth-config/src/paths.rs:199-213 | A slug is short, holds only letters, digits and dashes, starts with a letter or digit and, unless cut, ends with one. |
| CwdNames.SlugExactly | crates/codegen/wth-config/src/paths.rs:211-213 | A slug is the beginning, up to the limit, of the collapsed text without the dashes at both ends. |
| CwdNames.EncodeCwdDirname | crates/codegen/wth-config/src/paths.rs:123-137 | Percent-encoding up to 255 bytes, slug and hash beyond. |
| CwdNames.HashedNameShape | crates/codegen/wth-config/src/paths.rs:123-137 | A hashed name has at most 57 bytes, no percent sign and no colon, and does not start with a slash. |
| CwdNames.HashedNameParts | crates/codegen/wth-config/src/paths.rs:128-136 | A hashed name is the slug of the last path component, or `workspace` where that is empty, a dash, and the whole hash. |
| CwdNames.HashedNamesDiffer | crates/codegen/wth-config/src/paths.rs:128-136 | Two long directories with different hashes get different names. |
| CwdNames.NameFits | crates/codegen/wth-config/src/paths.rs:123-137 | Every name has at most 255 bytes, and a hashed one at most 57. |
| CwdNames.ShortNamesDiffer | crates/codegen/wth-config/src/paths.rs:123-137 | Different directories with short names get different names. |
| CwdNames.ShortAndHashedDiffer | crates/codegen/wth-config/src/paths.rs:123-153 | The short name of an absolute Unix path is never another directory's hashed name. |
| CwdNames.Sessions.EnsureSessionsCwdDir | crates/codegen/wth-config/src/paths.rs:174-193 | Creates the directory if needed and records a hashed directory's path once; says which I/O failures are returned and what they leave on disk. |
| CwdNames.Sessions.DecodeCwdFromDirname | crates/codegen/wth-config/src/paths.rs:144-159 | A decoded name that looks absolute, on Unix or Windows, or else the trimmed record, or nothing. |
| CwdNames.AbsoluteIff | crates/codegen/wth-config/src/paths.rs:146-153 | A UTF-8 text looks absolute exactly if it starts with a slash or, on Windows, if a colon follows directly on its first character, of however many bytes. |
| CwdNames.FreshRoundTrip | crates/codegen/wth-config/src/paths.rs:123-193 | After ensuring a fresh directory without I/O failure, decoding returns the original exactly when it looks absolute (short names) or is unchanged by trimming (hashed names). |
| CwdNames.LostDirectories | crates/codegen/wth-config/src/paths.rs:144-193 | A relative path, and a long one that ends in a space, that do not come back. |
| CwdNames.TornRecordStays | crates/codegen/wth-config/src/paths.rs:181-190 | After a record was cut short by a failed write, no later call changes it, and the directory never decodes to its path. |
| CwdNames.EnsureAgainKeeps | crates/codegen/wth-config/src/paths.rs:174-193 | Ensuring again, failing or not, changes no record. |
| LineBridge.DrainReachesEnd | editors/vscode/src/extension.ts:228-236 | Draining handles all complete lines and leaves the rest exactly when nothing throws before the last one. |
| LineBridge.LinesAppend | editors/vscode/src/extension.ts:228-236 | The lines of a text with more appended are its lines, and those of its rest with more appended. |
| LineBridge.FramedLines | editors/vscode/src/extension.ts:228-236 | A text's first line counts, trimmed, unless it is blank, and what no newline ends is no line. |
| LineBridge.ReceiveIsLines | editors/vscode/src/extension.ts:228-236 | Over any chunks, at a buffer without a newline, the handled lines are the trimmed non-empty lines of buffer and chunks, and the buffer is what follows the last newline, as long as nothing throws before the last line. |
| LineBridge.ChunkingIsHarmlessIff | editors/vscode/src/extension.ts:59-77 | That holds for every way to cut a text exactly when no complete line but the last is JSON `null`. |
| LineBridge.NullHoldsUpLines | editors/vscode/src/extension.ts:59-77 | A `null` line with a line behind it: in one chunk the second waits in the buffer, in two chunks it is handled. |
| LineBridge.LeftoverIsHarmlessIff | editors/vscode/src/extension.ts:210-245 | If the old child is silent once the next one starts: behind what it left, the next child's output is framed by its own newlines exactly when the leftover held no line, and the output has no newline or what follows the leftover's last newline is white space. |
| LineBridge.LateOutputIsHarmlessIff | editors/vscode/src/extension.ts:228-236 | If the old child still writes, after some output of the next one: its lines come in between and the next child's stay as they are, whatever that goes on to write, exactly when the late output is empty, or the text since the last newline is white space before it and at its end. |
| LineBridge.LateOutputGarblesLine | editors/vscode/src/extension.ts:228-236 | Late output in the middle of a line of the next child. |
| LineBridge.LeftoverGarblesLine | editors/vscode/src/extension.ts:210-245 | A leftover that garbles the first line of the next child. |
| LineBridge.Bridge.constructor | editors/vscode/src/extension.ts:13-20 | At module load nothing is buffered or pending, and there is no child. |
| LineBridge.Bridge.StartSession | editors/vscode/src/extension.ts:210-253 | A new child gets a fresh request id; buffer, pending requests and answers of the last one stay, and the last one may still be running. |
| LineBridge.Bridge.StopSession | editors/vscode/src/extension.ts:283-288 | The child is let go of without waiting for its exit. |
| LineBridge.Bridge.ChildExits | editors/vscode/src/extension.ts:241-245 | The exit of any child lets go of the current one, which runs on if it was another that exited; buffer and pending requests stay. |
| LineBridge.Bridge.Request | editors/vscode/src/extension.ts:48-53 | Ids increase, and each new one is neither pending nor answered. |
| LineBridge.Bridge.HandleServerLine | editors/vscode/src/extension.ts:59-77 | A response resolves the pending request that has its id, and nothing else does; it throws exactly on `null`. |
| LineBridge.Bridge.TakeLine | editors/vscode/src/extension.ts:231-235 | One line is cut off the buffer and handled. |
| LineBridge.Bridge.OnData | editors/vscode/src/extension.ts:228-236 | A chunk handles exactly the lines that draining the buffer and the chunk gives; of the pending requests exactly those that one of these lines answers are resolved, and answers once given stay. |
| AtomicWrite.TempNamesDiffer | crates/codegen/wth-config/src/fs_atomic.rs:10-24 | Process id and counter make temporary names unique and different from the final path. |
| AtomicWrite.StepKeepsNonces | crates/codegen/wth-config/src/fs_atomic.rs:10-24 | No two writers still at work share both process id and counter, although a later process may reuse an id and count from 0 again. |
| AtomicWrite.StepKeepsTemps | crates/codegen/wth-config/src/fs_atomic.rs:25-43 | A writer's temporary file holds what it wrote so far, whatever the others do. |
| AtomicWrite.StepKeepsFinal | crates/codegen/wth-config/src/fs_atomic.rs:25-43 | The final path holds its first contents or those of the last writer to rename. |
| AtomicWrite.RunKeepsInv | crates/codegen/wth-config/src/fs_atomic.rs:10-43 | All of this holds in every run. |
| AtomicWrite.NeverTorn | crates/codegen/wth-config/src/fs_atomic.rs:10-43 | At every moment the final path holds its first contents, if no writer has succeeded, or one successful writer's complete contents. |
| AtomicWrite.OnlyRenameInstalls | crates/codegen/wth-config/src/fs_atomic.rs:25-43 | Only a successful rename changes the final path, and it takes the temporary file away; a failed create, write or rename, cleanup, and the end of a process do not. |
| AtomicWrite.EndingStep | crates/codegen/wth-config/src/fs_atomic.rs:35-43 | A writer ends only by its rename or, after a failure, by removing its temporary file or failing to; unless the removal fails no temporary file is left under its name. |
| AtomicWrite.EndedHow | crates/codegen/wth-config/src/fs_atomic.rs:35-43 | In every run, a writer that succeeded renamed, and one that failed went through the removal. |
| AtomicWrite.RenameFindsTemp | crates/codegen/wth-config/src/fs_atomic.rs:25-43 | A complete temporary file is still there when its writer renames it. |
| AtomicWrite.CleanupSparesTheLive | crates/codegen/wth-config/src/fs_atomic.rs:39-41 | Cleanup after a failure, a collision of names included, takes no file from a writer still at work and not the final one. |
| AtomicWrite.CleanupTakesDeadFile | crates/codegen/wth-config/src/fs_atomic.rs:39-41 | It can take the file that a dead process with the same id left. |
| ManagedPolicy.UnsignedIsRefusedIff | crates/codegen/wth-config/src/managed_cache.rs:366-416 | In a build with keys and without an authentic sidecar (missing, squatted, unparsable or forged): refused exactly if a marker opted in and recorded some policy file, whether that is still there or not, or belongs to another key. |
| ManagedPolicy.UnverifiedIsRefusedIff | crates/codegen/wth-config/src/managed_cache.rs:366-418 | With an unreadable sidecar, or in a build without keys: refused exactly if a marker opted in and a policy file it recorded is gone, or it belongs to another key. |
| ManagedPolicy.SignedIsRefusedIff | crates/codegen/wth-config/src/managed_cache.rs:366-418 | In a build with keys and an authentic sidecar: refused exactly if it is bound to another principal, or opted in and has expired or a file is seen to be wrong, or the marker opted in for another key. |
| ManagedPolicy.HardStaleIff | crates/codegen/wth-config/src/managed_cache.rs:263-296 | Hard staleness, read off the disk: no marker, a recorded file gone, another team or key, or in a build with keys a policy on disk that no authentic sidecar of the served principal, in date, vouches for. |
| ManagedPolicy.StaleIff | crates/codegen/wth-config/src/managed_cache.rs:423-450 | Background staleness is hard staleness, or a marker without a sync time or with one longer ago than the threshold; a time in the future is no reason. |
| ManagedPolicy.RefusalTriggersRefetchIff | crates/codegen/wth-config/src/managed_cache.rs:224-418 | A refusal, as the three results above characterise it, goes with hard staleness, for the same identity and time, exactly when a policy is on disk, the marker is absent or recorded an artifact, or it is another identity's or key's. |
| ManagedPolicy.RefusedNotHardStale | crates/codegen/wth-config/src/managed_cache.rs:289-450 | A refusal without hard staleness comes from a compromised verdict over an empty cache whose marker recorded nothing, and then the background check asks for a refetch exactly when its timer is up or no sync time is known. |
| ManagedPolicy.RefusedUntilTimer | crates/codegen/wth-config/src/managed_cache.rs:289-450 | Such a cache: an expired opt-in with nothing to enforce, asked for again only when the timer is up. |
| ManagedPolicy.HardStaleIsStale | crates/codegen/wth-config/src/managed_cache.rs:423-450 | The background check is never laxer than the hard one. |
| ManagedPolicy.FaithfulSyncIsQuiet | crates/codegen/wth-config/src/signed_policy.rs:274-410 | After a faithful sync for the identity, neither check fires while in date; after expiry, refetch and refusal fire under exactly stated conditions. |
| ManagedPolicy.EditsAreRefused | crates/codegen/wth-config/src/managed_cache.rs:366-418 | Whatever became of the policy files and the marker after a faithful sync, and at any time, a build with keys refuses exactly when the marker names another principal, or the payload opted in and has expired or the gate sees an edit, or the marker opted in for another key. |
| ManagedPolicy.EditsAreRefusedInDate | crates/codegen/wth-config/src/signed_policy.rs:186-220 | With the marker kept and an opted-in payload in date, refusal is exactly a seen edit: `managed_config.toml` is squatted, or is readable and it differs, or `requirements.toml` is squatted, or is readable and differs. |
| ManagedPolicy.HiddenEditsAreRefetched | crates/codegen/wth-config/src/signed_policy.rs:274-291 | An edit the opted-in gate does not refuse hides behind an unreadable file, and the cache is then fetched again. |
| ManagedPolicy.MaskedEditIsNotRefused | crates/codegen/wth-config/src/signed_policy.rs:186-220 | Such an edit: `requirements.toml` changed while `managed_config.toml` cannot be read. |

## Left out

- Fairness: `WaitProtocol` shows that an owed bump is never blocked, not that the scheduler gets to it; deadlines of `wait_for` are steps that may come at any time.
- StableWait.DecidedByDeadline: how long a waiter with a step to take is kept waiting is the scheduler's business; the contracts count that time and do not bound it. Changes are counted, and one that leaves the grid as it was counts too.
- Wrap-around of the `u64` generation and of the nonce counter.
- Regex and text conditions of waits: a condition is any predicate of the grid.
- `ConfigLayers::load`, environment expansion and `config.toml` parsing: the model starts from parsed layers.
- `take_campaigns`: which meta fields a campaign element has, and the `campaign_id` alias, are a parameter of `ConfigOverride.TakePatchArray`; a decoding error means no entries.
- Loader.ConfigLayers.EffectiveConfigWithCampaigns: the shell's environment override layer of campaigns is not part of this model.
- ConfigOverride.TakePatchArray: entries and the remaining config are returned as new values; aliasing does not arise under `&mut`.
- Subagents.MergeSubagents: the plugin-aware variants, with their namespaced names, are not modelled.
- Subagents.CallableIsVisible: names with a path separator, which lookup would follow into subdirectories that discovery does not read.
- Subagents.DiscoverWithHome: finding the repository root and the directory chain are inputs; listing order within a directory is the order given.
- CwdNames.Sessions.EnsureSessionsCwdDir: two calls at the same time; a call is one step.
- CwdNames.EncodeCwdDirname: UTF-8 validity, the hash, the last path component in lower case, and trimming are parameters.
- StyledRuns.ExtractStyledLine: colours are their rendered names; the alacritty grid is a matrix of cells; HTML output and `parse_range` are left out.
- LineBridge.Bridge.HandleServerLine: notifications, server requests and approvals have no effect on framing or on pending requests and are only acknowledged; `JSON.parse` is a parameter, and `hasMethod` means a method that is not empty.
- AtomicWrite.OnlyRenameInstalls: file modes, directories, durability after a power loss, and two live processes with one id (separate process-id namespaces over one directory) are not modelled.
- ManagedPolicy.RefusalTriggersRefetchIff: one evaluation over one view of the disk; the retry around a concurrent apply, writing the marker, and the cryptography of signatures are left out.
- The other architecture rules of `check_arch.py`, agent preset tables, `AgentBuilder`, the proxy, the webview and shell detection: mostly fixed tables and filters.
