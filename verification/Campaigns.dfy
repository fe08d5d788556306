/** Campaign overlays: entries by id, first source wins, dismissed ids dropped, patches applied
    lowest priority first. */
module Campaigns {
  import opened Wrappers
  import opened Orders
  import opened Sequences
  import opened Text
  import opened Toml
  import opened ConfigOverride

  datatype Campaign = Campaign(id: string, patch: Tbl)

  // ---------------------------------------------------------------- building

  function IdOf(meta: Option<string>): Option<string> {
    if meta.None? || Trim(RustSpace, meta.value) == "" then None else Some(Trim(RustSpace, meta.value))
  }

  function Usable(e: Entry<Option<string>>): Option<Campaign> {
    if IdOf(e.meta).None? || e.patch == map[] then None else Some(Campaign(IdOf(e.meta).value, e.patch))
  }

  function Built(taken: seq<Entry<Option<string>>>): seq<Campaign> {
    if taken == [] then []
    else
      var last := Usable(taken[|taken| - 1]);
      Built(taken[..|taken| - 1]) + if last.Some? then [last.value] else []
  }

  method BuildCampaignEntries(taken: seq<Entry<Option<string>>>) returns (out: seq<Campaign>)
    ensures out == Built(taken)
  {
    out := [];
    for i := 0 to |taken|
      invariant out == Built(taken[..i])
    {
      var entry := taken[i];
      assert taken[..i + 1][..i] == taken[..i];
      var id := if entry.meta.Some? then Trim(RustSpace, entry.meta.value) else "";
      if id == "" {
        continue;
      }
      if entry.patch == map[] {
        continue;
      }
      out := out + [Campaign(id, entry.patch)];
    }
    assert taken[..|taken|] == taken;
  }

  /** An entry with an id that is more than white space and a patch that is not empty. */
  predicate Proper(e: Entry<Option<string>>) {
    e.meta.Some? && !Blank(RustSpace, e.meta.value) && e.patch != map[]
  }

  /** The campaigns built are the proper entries, each once and in order, under their trimmed ids;
      `picks` says which entries those were. */
  ghost predicate BuiltFrom(taken: seq<Entry<Option<string>>>, out: seq<Campaign>, picks: seq<int>) {
    && Increasing(picks)
    && (forall i :: i in picks <==> 0 <= i < |taken| && Proper(taken[i]))
    && |picks| == |out|
    && forall k :: 0 <= k < |picks| ==>
         && 0 <= picks[k] < |taken| && taken[picks[k]].meta.Some?
         && out[k] == Campaign(Trim(RustSpace, taken[picks[k]].meta.value), taken[picks[k]].patch)
  }

  lemma {:induction false} BuiltExactly(taken: seq<Entry<Option<string>>>) returns (picks: seq<int>)
    ensures BuiltFrom(taken, Built(taken), picks)
  {
    picks := [];
    if taken != [] {
      var front, last := taken[..|taken| - 1], taken[|taken| - 1];
      var before := BuiltExactly(front);
      assert taken == front + [last];
      UsableIffProper(last);
      assert Built(taken) == Built(front) + if Usable(last).Some? then [Usable(last).value] else [];
      hide Built, Usable, Trim, Proper;
      picks := BuiltMore(front, Built(front), before, last);
    }
  }

  lemma UsableIffProper(e: Entry<Option<string>>)
    ensures Usable(e).Some? <==> Proper(e)
    ensures Proper(e) ==> Usable(e) == Some(Campaign(Trim(RustSpace, e.meta.value), e.patch))
  {
    if e.meta.Some? {
      TrimOfBlank(RustSpace, e.meta.value);
    }
  }

  lemma BuiltMore(taken: seq<Entry<Option<string>>>, out: seq<Campaign>, picks: seq<int>, e: Entry<Option<string>>)
    returns (more: seq<int>)
    requires BuiltFrom(taken, out, picks)
    requires Proper(e) ==> Usable(e) == Some(Campaign(Trim(RustSpace, e.meta.value), e.patch))
    requires Usable(e).Some? <==> Proper(e)
    ensures BuiltFrom(taken + [e], out + (if Usable(e).Some? then [Usable(e).value] else []), more)
  {
    hide Usable, Trim, Blank;
    more := picks + if Proper(e) then [|taken|] else [];
    assert forall i :: i in more <==> i in picks || (i == |taken| && Proper(e));
    assert forall k :: 0 <= k < |picks| ==> (taken + [e])[picks[k]] == taken[picks[k]];
  }

  // ---------------------------------------------------------------- first id wins

  function ById(): Campaign -> string {
    (e: Campaign) => e.id
  }

  function Ids(entries: seq<Campaign>): (ids: set<string>)
    ensures ids == set e | e in entries :: e.id
  {
    KeysOf(ById(), entries)
  }

  function FirstById(entries: seq<Campaign>): seq<Campaign> {
    FirstBy(ById(), entries)
  }

  lemma OneMoreEntry(entries: seq<Campaign>, e: Campaign)
    ensures Ids(entries + [e]) == Ids(entries) + {e.id}
    ensures FirstById(entries + [e])
         == if e.id in Ids(entries) then FirstById(entries) else FirstById(entries) + [e]
  {
    OneMoreKey(ById(), entries, e);
  }

  method MergeCampaignEntries(sources: seq<seq<Campaign>>) returns (out: seq<Campaign>)
    ensures out == FirstById(Concat(sources))
  {
    var seen: set<string> := {};
    out := [];
    for i := 0 to |sources|
      invariant out == FirstById(Concat(sources[..i])) && seen == Ids(Concat(sources[..i]))
    {
      hide FirstById, Ids;
      assert sources[..i + 1][..i] == sources[..i];
      out, seen := AddSource(sources[i], out, seen, Concat(sources[..i]));
    }
    assert sources[..|sources|] == sources;
  }

  method AddSource(source: seq<Campaign>, out: seq<Campaign>, seen: set<string>, ghost flat: seq<Campaign>)
    returns (out': seq<Campaign>, seen': set<string>)
    requires out == FirstById(flat) && seen == Ids(flat)
    ensures out' == FirstById(flat + source) && seen' == Ids(flat + source)
  {
    hide FirstById, Ids;
    out', seen' := out, seen;
    assert flat + source[..0] == flat;
    for j := 0 to |source|
      invariant out' == FirstById(flat + source[..j]) && seen' == Ids(flat + source[..j])
    {
      var entry := source[j];
      OneMoreEntry(flat + source[..j], entry);
      assert flat + source[..j + 1] == flat + source[..j] + [entry];
      if entry.id in seen' {
        continue;
      }
      seen' := seen' + {entry.id};
      out' := out' + [entry];
    }
    assert source[..|source|] == source;
  }

  /** No earlier entry carries the id of entry `i`. */
  predicate IsFirst(entries: seq<Campaign>, i: int) {
    0 <= i < |entries| && forall j :: 0 <= j < i ==> entries[j].id != entries[i].id
  }

  lemma FirstInRange(entries: seq<Campaign>)
    ensures forall i :: IsFirst(entries, i) ==> 0 <= i < |entries|
  {
  }

  lemma FirstInFront(entries: seq<Campaign>)
    requires entries != []
    ensures forall i :: 0 <= i < |entries| - 1 ==> (IsFirst(entries, i) <==> IsFirst(entries[..|entries| - 1], i))
    ensures IsFirst(entries, |entries| - 1)
      <==> entries[|entries| - 1].id !in Ids(entries[..|entries| - 1])
  {
  }

  /** The merged list picks exactly the first entry of each id, in the order of the sources. */
  lemma {:induction false} FirstByIdPicks(entries: seq<Campaign>) returns (picks: seq<int>)
    ensures |picks| == |FirstById(entries)|
    ensures forall k :: 0 <= k < |picks| ==>
      IsFirst(entries, picks[k]) && FirstById(entries)[k] == entries[picks[k]]
    ensures forall k, l :: 0 <= k < l < |picks| ==> picks[k] < picks[l]
    ensures forall i :: IsFirst(entries, i) ==> i in picks
  {
    picks := [];
    if entries != [] {
      var n := |entries| - 1;
      var front := entries[..n];
      var before := FirstByIdPicks(front);
      FirstInFront(entries);
      FirstInRange(entries);
      hide IsFirst, Ids;
      picks := if entries[n].id in Ids(front) then before else before + [n];
      forall k | 0 <= k < |picks|
        ensures IsFirst(entries, picks[k]) && FirstById(entries)[k] == entries[picks[k]]
      {
        if k < |before| {
          PickInFront(entries, before[k]);
        }
      }
      forall i | IsFirst(entries, i)
        ensures i in picks
      {
        assert if i < n then i in before else picks[|before|] == n;
      }
    }
  }

  lemma PickInFront(entries: seq<Campaign>, i: int)
    requires entries != [] && IsFirst(entries[..|entries| - 1], i)
    ensures 0 <= i < |entries| - 1 && IsFirst(entries, i)
  {
  }

  ghost predicate DistinctIds(entries: seq<Campaign>) {
    forall i, j :: 0 <= i < j < |entries| ==> entries[i].id != entries[j].id
  }

  lemma FirstByIdDistinct(entries: seq<Campaign>)
    ensures DistinctIds(FirstById(entries))
    ensures Ids(FirstById(entries)) == Ids(entries)
  {
    FirstByDistinct(ById(), entries);
    assert forall i :: 0 <= i < |FirstById(entries)| ==> ById()(FirstById(entries)[i]) == FirstById(entries)[i].id;
  }

  lemma {:induction false} ConcatStarts(sources: seq<seq<Campaign>>, k: nat)
    requires k < |sources|
    ensures Concat(sources[..k]) + sources[k] <= Concat(sources)
    decreases |sources|
  {
    var last := |sources| - 1;
    if k < last {
      ConcatStarts(sources[..last], k);
      assert sources[..last][..k] == sources[..k];
    }
  }

  lemma {:induction false} ConcatFrom(sources: seq<seq<Campaign>>, e: Campaign)
    requires e in Concat(sources)
    ensures exists m :: 0 <= m < |sources| && e in sources[m]
  {
    var last := |sources| - 1;
    if e in Concat(sources[..last]) {
      ConcatFrom(sources[..last], e);
      var m :| 0 <= m < last && e in sources[..last][m];
      assert e in sources[m];
    }
  }

  lemma FirstIsPicked(entries: seq<Campaign>, i: int)
    requires IsFirst(entries, i)
    ensures entries[i] in FirstById(entries)
  {
    var picks := FirstByIdPicks(entries);
    var l :| 0 <= l < |picks| && picks[l] == i;
    assert FirstById(entries)[l] == entries[i];
  }

  lemma {:induction false} FreshIdsBefore(sources: seq<seq<Campaign>>, id: string)
    requires forall m :: 0 <= m < |sources| ==> id !in Ids(sources[m])
    ensures id !in Ids(Concat(sources))
  {
    forall e | e in Concat(sources)
      ensures e.id != id
    {
      ConcatFrom(sources, e);
      var m :| 0 <= m < |sources| && e in sources[m];
      assert e.id in Ids(sources[m]);
    }
  }

  lemma FirstAfter(before: seq<Campaign>, source: seq<Campaign>, i: int, flat: seq<Campaign>)
    requires IsFirst(source, i) && source[i].id !in Ids(before)
    requires before + source <= flat
    ensures IsFirst(flat, |before| + i) && flat[|before| + i] == source[i]
  {
  }

  /** The entry kept for an id is the first one in the first source that has the id. */
  lemma SourcePriority(sources: seq<seq<Campaign>>, k: nat, i: nat)
    requires k < |sources| && IsFirst(sources[k], i)
    requires forall m :: 0 <= m < k ==> sources[k][i].id !in Ids(sources[m])
    ensures sources[k][i] in FirstById(Concat(sources))
  {
    hide FirstById, Ids, Concat;
    var before := Concat(sources[..k]);
    ConcatStarts(sources, k);
    FreshIdsBefore(sources[..k], sources[k][i].id);
    FirstAfter(before, sources[k], i, Concat(sources));
    FirstIsPicked(Concat(sources), |before| + i);
  }

  // ---------------------------------------------------------------- dismissal

  function FilterActive(merged: seq<Campaign>, dismissed: set<string>): seq<Campaign> {
    Filter((e: Campaign) => e.id !in dismissed, merged)
  }

  function IdsTouching(active: seq<Campaign>, paths: seq<Path>): set<string> {
    set e | e in active && TouchesAny(e.patch, paths) :: e.id
  }

  /** The active entries are the undismissed ones, each once and in order; `picks` says where they were. */
  ghost predicate Undismissed(
      merged: seq<Campaign>, dismissed: set<string>, active: seq<Campaign>, picks: seq<int>)
  {
    && Increasing(picks)
    && (forall i :: i in picks <==> 0 <= i < |merged| && merged[i].id !in dismissed)
    && |picks| == |active|
    && (forall k :: 0 <= k < |picks| ==> 0 <= picks[k] < |merged| && active[k] == merged[picks[k]])
  }

  lemma ActivePicks(merged: seq<Campaign>, dismissed: set<string>) returns (picks: seq<int>)
    ensures Undismissed(merged, dismissed, FilterActive(merged, dismissed), picks)
    ensures forall e :: e in FilterActive(merged, dismissed) <==> e in merged && e.id !in dismissed
  {
    picks := FilterPicks((e: Campaign) => e.id !in dismissed, merged);
    forall e
      ensures e in FilterActive(merged, dismissed) <==> e in merged && e.id !in dismissed
    {
      FilterContents((e: Campaign) => e.id !in dismissed, merged, e);
    }
  }

  /** After dismissing what touches `paths`, no active campaign touches any of them. */
  lemma DismissedLeavesUntouched(merged: seq<Campaign>, dismissed: set<string>, paths: seq<Path>, e: Campaign)
    requires e in FilterActive(merged, dismissed + IdsTouching(FilterActive(merged, dismissed), paths))
    ensures e in FilterActive(merged, dismissed) && forall p :: p in paths ==> !Touches(e.patch, p)
  {
    var active := FilterActive(merged, dismissed);
    FilterContents((c: Campaign) => c.id !in dismissed, merged, e);
    FilterContents((c: Campaign) => c.id !in dismissed + IdsTouching(active, paths), merged, e);
  }

  /** Dismissal drops the touching campaigns and no other. */
  lemma DismissesOnlyTouching(merged: seq<Campaign>, dismissed: set<string>, paths: seq<Path>, e: Campaign)
    requires DistinctIds(merged)
    requires e in FilterActive(merged, dismissed) && forall p :: p in paths ==> !Touches(e.patch, p)
    ensures e in FilterActive(merged, dismissed + IdsTouching(FilterActive(merged, dismissed), paths))
  {
    var active := FilterActive(merged, dismissed);
    forall c | c in active && c.id == e.id
      ensures c == e
    {
      FilterContents((c: Campaign) => c.id !in dismissed, merged, c);
      FilterContents((c: Campaign) => c.id !in dismissed, merged, e);
      var i :| 0 <= i < |merged| && merged[i] == c;
      var j :| 0 <= j < |merged| && merged[j] == e;
    }
    FilterContents((c: Campaign) => c.id !in dismissed, merged, e);
    FilterContents((c: Campaign) => c.id !in dismissed + IdsTouching(active, paths), merged, e);
  }

  // ---------------------------------------------------------------- applying

  /** The patches in the order they are applied: lowest priority first. */
  function PatchesLowestFirst(active: seq<Campaign>): seq<Tbl> {
    if active == [] then [] else PatchesLowestFirst(active[1..]) + [active[0].patch]
  }

  function ActiveLayers(active: seq<Campaign>): seq<Value> {
    Layers(PatchesLowestFirst(active), PATCH_STRIP_KEYS)
  }

  method ApplyActiveCampaignPatches(effective: Value, active: seq<Campaign>) returns (out: Value)
    ensures out == MergeAll(effective, ActiveLayers(active))
  {
    out := ApplyPatches(effective, PatchesLowestFirst(active), PATCH_STRIP_KEYS);
  }

  lemma {:induction false} LayersConcat(a: seq<Tbl>, b: seq<Tbl>, keys: seq<string>)
    ensures Layers(a + b, keys) == Layers(a, keys) + Layers(b, keys)
    decreases |a|
  {
    if a == [] {
      assert a + b == b;
    } else {
      assert (a + b)[1..] == a[1..] + b;
      LayersConcat(a[1..], b, keys);
    }
  }

  /** The layer a campaign contributes. */
  function LayerOf(c: Campaign): Value {
    Table(Strip(c.patch, PATCH_STRIP_KEYS))
  }

  lemma ActiveLayersStep(active: seq<Campaign>, v: Value)
    requires active != []
    ensures MergeAll(v, ActiveLayers(active)) == Merge(MergeAll(v, ActiveLayers(active[1..])), LayerOf(active[0]))
  {
    var rest := PatchesLowestFirst(active[1..]);
    LayersConcat(rest, [active[0].patch], PATCH_STRIP_KEYS);
    var top := [LayerOf(active[0])];
    assert Layers([active[0].patch], PATCH_STRIP_KEYS) == top;
    MergeAllConcat(v, Layers(rest, PATCH_STRIP_KEYS), top);
    assert top[1..] == [];
    assert MergeAll(MergeAll(v, Layers(rest, PATCH_STRIP_KEYS)), top)
        == MergeAll(Merge(MergeAll(v, Layers(rest, PATCH_STRIP_KEYS)), top[0]), top[1..]);
  }

  /** Campaigns that leave a path alone leave the value there as it was. */
  lemma {:induction false} UntouchedByCampaigns(active: seq<Campaign>, v: Value, p: Path)
    requires p != [] && forall e :: e in active ==> !Touches(e.patch, p)
    ensures Get(MergeAll(v, ActiveLayers(active)), p) == Get(v, p)
  {
    if active != [] {
      UntouchedByCampaigns(active[1..], v, p);
      ActiveLayersStep(active, v);
      StripBears(active[0].patch, PATCH_STRIP_KEYS, p);
      PathLaw(MergeAll(v, ActiveLayers(active[1..])), LayerOf(active[0]), p);
    }
  }

  /** The first active campaign that touches `p` decides the node at `p`; the ones after it in
      the list, and the config below, have no say. */
  lemma {:induction false} FirstTouchingDecides(active: seq<Campaign>, k: int, v: Value, p: Path)
    requires 0 <= k < |active| && p != [] && p[0] !in PATCH_STRIP_KEYS
    requires Touches(active[k].patch, p)
    requires forall i :: 0 <= i < k ==> !Touches(active[i].patch, p)
    ensures At(MergeAll(v, ActiveLayers(active)), p)
         == if Bears(Table(active[k].patch), p) == Cut then Absent
            else NodeOf(Some(Bears(Table(active[k].patch), p).value))
    decreases |active|
  {
    ActiveLayersStep(active, v);
    var below := MergeAll(v, ActiveLayers(active[1..]));
    StripBears(active[0].patch, PATCH_STRIP_KEYS, p);
    MergeAt(below, LayerOf(active[0]), p);
    if k > 0 {
      assert forall i :: 0 <= i < k - 1 ==> active[1..][i] == active[i + 1];
      FirstTouchingDecides(active[1..], k - 1, v, p);
    }
  }
}
