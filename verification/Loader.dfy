/** Layered configuration: base layers, campaign overlay, and requirements on top. */
module Loader {
  import opened Wrappers
  import opened Sequences
  import opened Toml
  import opened ConfigOverride
  import opened Campaigns

  datatype CampaignOverrides = CampaignOverrides(
    requirements: seq<Campaign>,
    user: seq<Campaign>,
    managed: seq<Campaign>,
    systemManaged: seq<Campaign>)

  function Present(layer: Option<Value>): seq<Value> {
    if layer.Some? then [layer.value] else []
  }

  /** `GROK_CAMPAIGNS=0`, or `features.campaigns = false` in the base. */
  predicate ApplicationDisabled(base: Value, envSwitch: Option<bool>) {
    || envSwitch == Some(false)
    || Get(base, ["features", "campaigns"]) == Some(Leaf(Boolean(false)))
  }

  datatype ConfigLayers = ConfigLayers(
    systemManaged: Value,
    managed: Value,
    user: Value,
    userRequirements: Option<Value>,
    systemRequirements: Option<Value>,
    mdmRequirements: Option<Value>,
    campaigns: CampaignOverrides)
  {
    /** The requirements layers that are present, in the order they are merged. */
    function Requirements(): seq<Value> {
      Present(userRequirements) + Present(systemRequirements) + Present(mdmRequirements)
    }

    function Base(): Value {
      MergeAll(systemManaged, [managed, user] + Requirements())
    }

    method EffectiveConfigBase() returns (merged: Value)
      ensures merged == Base()
    {
      merged := DeepMerge(systemManaged, managed);
      merged := DeepMerge(merged, user);
      assert ([managed, user] + Requirements())[1..] == [user] + Requirements();
      assert ([user] + Requirements())[1..] == Requirements();
      assert MergeAll(systemManaged, [managed, user] + Requirements())
          == MergeAll(Merge(systemManaged, managed), [user] + Requirements())
          == MergeAll(merged, Requirements());
      merged := ReapplyRequirements(merged);
    }

    /** Priority order: requirements, remote, user, managed, system managed. */
    function SourceSlices(remote: seq<Campaign>): seq<seq<Campaign>> {
      [campaigns.requirements, remote, campaigns.user, campaigns.managed, campaigns.systemManaged]
    }

    function Active(base: Value, remote: seq<Campaign>, dismissed: set<string>, envSwitch: Option<bool>)
      : seq<Campaign>
    {
      if ApplicationDisabled(base, envSwitch) then []
      else FilterActive(FirstById(Concat(SourceSlices(remote))), dismissed)
    }

    method ResolveCampaigns(base: Value, remote: seq<Campaign>, dismissed: set<string>, envSwitch: Option<bool>)
      returns (active: seq<Campaign>)
      ensures active == Active(base, remote, dismissed, envSwitch)
    {
      if ApplicationDisabled(base, envSwitch) {
        return [];
      }
      var merged := MergeCampaignEntries(SourceSlices(remote));
      return FilterActive(merged, dismissed);
    }

    method ReapplyRequirements(before: Value) returns (merged: Value)
      ensures merged == MergeAll(before, Requirements())
    {
      merged := before;
      var reqs := Requirements();
      for i := 0 to |reqs|
        invariant MergeAll(before, reqs) == MergeAll(merged, reqs[i..])
      {
        assert reqs[i..][1..] == reqs[i + 1..];
        merged := DeepMerge(merged, reqs[i]);
      }
    }

    method ApplyCampaignOverrides(before: Value, active: seq<Campaign>) returns (merged: Value)
      ensures merged == MergeAll(MergeAll(before, ActiveLayers(active)), Requirements())
    {
      merged := ApplyActiveCampaignPatches(before, active);
      merged := ReapplyRequirements(merged);
    }

    function Effective(remote: seq<Campaign>, dismissed: set<string>, envSwitch: Option<bool>): Value {
      MergeAll(MergeAll(Base(), ActiveLayers(Active(Base(), remote, dismissed, envSwitch))), Requirements())
    }

    method EffectiveConfigWithCampaigns(remote: seq<Campaign>, dismissed: set<string>, envSwitch: Option<bool>)
      returns (merged: Value)
      ensures merged == Effective(remote, dismissed, envSwitch)
    {
      merged := EffectiveConfigBase();
      var active := ResolveCampaigns(merged, remote, dismissed, envSwitch);
      merged := ApplyCampaignOverrides(merged, active);
    }

    // -------------------------------------------------------------- what the overlay keeps

    lemma BaseSplits()
      ensures Base() == MergeAll(MergeAll(systemManaged, [managed, user]), Requirements())
    {
      MergeAllConcat(systemManaged, [managed, user], Requirements());
    }

    /** All layers, lowest first: system managed, managed, user, then the requirements. */
    function AllLayers(): seq<Value> {
      [systemManaged, managed, user] + Requirements()
    }

    /** In the base, the highest layer that bears on a path decides what is there. */
    lemma HighestLayerDecides(k: nat, p: Path)
      requires k < |AllLayers()| && Bears(AllLayers()[k], p) != Untouched
      requires AllUntouched(AllLayers()[k + 1..], p)
      ensures At(Base(), p) == Overlay(AllLayers()[k], p, Absent)
    {
      var upper := [managed, user] + Requirements();
      assert AllLayers() == [systemManaged] + upper;
      if k > 0 {
        assert upper[k - 1] == AllLayers()[k] && upper[k..] == AllLayers()[k + 1..];
        LastBearingDecides(systemManaged, upper, k - 1, p);
      } else {
        assert AllLayers()[1..] == upper;
        MergeAllFrame(systemManaged, upper, p);
        BearsAlone(systemManaged, p);
      }
    }

    /** A campaign id resolves in the first of requirements, remote, user, managed and system
        managed that has it. */
    lemma SlicePriority(remote: seq<Campaign>, e: Campaign)
      requires
        || FirstIn(campaigns.requirements, e)
        || (FirstIn(remote, e) && e.id !in Ids(campaigns.requirements))
        || (FirstIn(campaigns.user, e) && e.id !in Ids(campaigns.requirements) + Ids(remote))
        || (FirstIn(campaigns.managed, e)
            && e.id !in Ids(campaigns.requirements) + Ids(remote) + Ids(campaigns.user))
        || (FirstIn(campaigns.systemManaged, e)
            && e.id !in Ids(campaigns.requirements) + Ids(remote) + Ids(campaigns.user) + Ids(campaigns.managed))
      ensures e in FirstById(Concat(SourceSlices(remote)))
    {
      var slices := SourceSlices(remote);
      var k := if FirstIn(slices[0], e) then 0
               else if FirstIn(slices[1], e) && e.id !in Ids(slices[0]) then 1
               else if FirstIn(slices[2], e) && e.id !in Ids(slices[0]) + Ids(slices[1]) then 2
               else if FirstIn(slices[3], e) && e.id !in Ids(slices[0]) + Ids(slices[1]) + Ids(slices[2]) then 3
               else 4;
      var i :| IsFirst(slices[k], i) && slices[k][i] == e;
      SourcePriority(slices, k, i);
    }

    static ghost predicate FirstIn(source: seq<Campaign>, e: Campaign) {
      exists i :: IsFirst(source, i) && source[i] == e
    }

    /** The requirements layers, highest first. */
    function Tiers(): seq<Option<Value>> {
      [mdmRequirements, systemRequirements, userRequirements]
    }

    /** In the base, the highest requirements tier that bears on a path decides what is there. */
    lemma HighestTierDecides(k: nat, p: Path)
      requires k < 3 && Tiers()[k].Some? && Bears(Tiers()[k].value, p) != Untouched
      requires forall m :: 0 <= m < k && Tiers()[m].Some? ==> Bears(Tiers()[m].value, p) == Untouched
      ensures At(Base(), p) == Overlay(Tiers()[k].value, p, Absent)
    {
      var above :=
        Present(if k > 1 then systemRequirements else None) + Present(if k > 0 then mdmRequirements else None);
      var at := |AllLayers()| - 1 - |above|;
      assert AllLayers()[at] == Tiers()[k].value && AllLayers()[at + 1..] == above;
      assert k > 0 ==> Tiers()[0] == mdmRequirements;
      assert k > 1 ==> Tiers()[1] == systemRequirements;
      HighestLayerDecides(at, p);
    }

    /** Campaign ids of the requirements resolve by the same precedence: where `load` collects the
        campaigns taken off the tiers, highest tier first, an id keeps its first entry in the highest
        tier that has it. */
    lemma HighestTierCampaign(taken: seq<seq<Campaign>>, remote: seq<Campaign>, k: nat, i: nat)
      requires campaigns.requirements == Concat(taken)
      requires k < |taken| && IsFirst(taken[k], i)
      requires forall m :: 0 <= m < k ==> taken[k][i].id !in Ids(taken[m])
      ensures taken[k][i] in FirstById(Concat(SourceSlices(remote)))
    {
      var before := Concat(taken[..k]);
      ConcatStarts(taken, k);
      FreshIdsBefore(taken[..k], taken[k][i].id);
      FirstAfter(before, taken[k], i, campaigns.requirements);
      assert FirstIn(campaigns.requirements, taken[k][i]);
      SlicePriority(remote, taken[k][i]);
    }

    /** Putting the requirements on top of the base again changes nothing. */
    lemma ReapplyFixesBase()
      ensures MergeAll(Base(), Requirements()) == Base()
    {
      BaseSplits();
      MergeAllIdempotent(MergeAll(systemManaged, [managed, user]), Requirements());
    }

    /** With no active campaign, because all are dismissed or the kill switch is set, the
        effective config is the base. */
    lemma NoActiveIsBase(remote: seq<Campaign>, dismissed: set<string>, envSwitch: Option<bool>)
      requires Active(Base(), remote, dismissed, envSwitch) == []
      ensures Effective(remote, dismissed, envSwitch) == Base()
    {
      ReapplyFixesBase();
    }

    /** `GROK_CAMPAIGNS=0` gives the base, and so does a base that switches `features.campaigns` off. */
    lemma KillSwitchIsBase(remote: seq<Campaign>, dismissed: set<string>, envSwitch: Option<bool>)
      requires envSwitch == Some(false) || Get(Base(), ["features", "campaigns"]) == Some(Leaf(Boolean(false)))
      ensures Effective(remote, dismissed, envSwitch) == Base()
    {
      NoActiveIsBase(remote, dismissed, envSwitch);
    }

    /** In every other case all campaigns kept for their ids are active that are not dismissed, in the
        order of the sources: unset, on, or a switch in the base that is no boolean. */
    lemma ActiveExactly(base: Value, remote: seq<Campaign>, dismissed: set<string>, envSwitch: Option<bool>)
      returns (picks: seq<int>)
      requires envSwitch != Some(false)
      requires Get(base, ["features", "campaigns"]) != Some(Leaf(Boolean(false)))
      ensures
        var merged := FirstById(Concat(SourceSlices(remote)));
        var active := Active(base, remote, dismissed, envSwitch);
        && Undismissed(merged, dismissed, active, picks)
        && forall e :: e in active <==> e in merged && e.id !in dismissed
    {
      picks := ActivePicks(FirstById(Concat(SourceSlices(remote))), dismissed);
    }

    /** Where no active campaign touches a path, the effective config agrees with the base. */
    lemma UntouchedAgreesWithBase(
        remote: seq<Campaign>, dismissed: set<string>, envSwitch: Option<bool>, p: Path)
      requires p != []
      requires forall e :: e in Active(Base(), remote, dismissed, envSwitch) ==> !Touches(e.patch, p)
      ensures Get(Effective(remote, dismissed, envSwitch), p) == Get(Base(), p)
    {
      var overlaid := MergeAll(Base(), ActiveLayers(Active(Base(), remote, dismissed, envSwitch)));
      UntouchedByCampaigns(Active(Base(), remote, dismissed, envSwitch), Base(), p);
      MergeAllLocal(overlaid, Base(), Requirements(), p);
      ReapplyFixesBase();
    }

    /** Dismissing the campaigns that touch the paths a user writes brings the base values back
        at all of them: no campaign of a lower source takes a dismissed one's place. */
    lemma DismissalRestores(
        remote: seq<Campaign>, dismissed: set<string>, envSwitch: Option<bool>, paths: seq<Path>, p: Path)
      requires p in paths && p != []
      ensures
        var touching := IdsTouching(Active(Base(), remote, dismissed, envSwitch), paths);
        Get(Effective(remote, dismissed + touching, envSwitch), p) == Get(Base(), p)
    {
      var active := Active(Base(), remote, dismissed, envSwitch);
      var after := dismissed + IdsTouching(active, paths);
      forall e | e in Active(Base(), remote, after, envSwitch)
        ensures !Touches(e.patch, p)
      {
        DismissedLeavesUntouched(FirstById(Concat(SourceSlices(remote))), dismissed, paths, e);
      }
      UntouchedAgreesWithBase(remote, after, envSwitch, p);
    }

    /** Every node of the requirements' own merge, non-table values in particular, stands in
        the effective config whatever campaigns are active. */
    lemma RequirementsWin(
        remote: seq<Campaign>, dismissed: set<string>, envSwitch: Option<bool>, p: Path)
      requires Requirements() != []
      requires At(MergeAll(Requirements()[0], Requirements()[1..]), p) != Absent
      ensures At(Effective(remote, dismissed, envSwitch), p)
           == At(MergeAll(Requirements()[0], Requirements()[1..]), p)
    {
      var overlaid := MergeAll(Base(), ActiveLayers(Active(Base(), remote, dismissed, envSwitch)));
      assert Requirements() == [Requirements()[0]] + Requirements()[1..];
      LayersWin(overlaid, Requirements()[0], Requirements()[1..], p);
    }

    /** Where the requirements layers say nothing, the first active campaign touching a path
        decides it. */
    lemma CampaignDecides(
        remote: seq<Campaign>, dismissed: set<string>, envSwitch: Option<bool>, k: int, p: Path)
      requires p != [] && p[0] !in PATCH_STRIP_KEYS && AllUntouched(Requirements(), p)
      requires 0 <= k < |Active(Base(), remote, dismissed, envSwitch)|
      requires Touches(Active(Base(), remote, dismissed, envSwitch)[k].patch, p)
      requires forall i :: 0 <= i < k ==> !Touches(Active(Base(), remote, dismissed, envSwitch)[i].patch, p)
      ensures
        var patch := Active(Base(), remote, dismissed, envSwitch)[k].patch;
        At(Effective(remote, dismissed, envSwitch), p)
          == if Bears(Table(patch), p) == Cut then Absent else NodeOf(Some(Bears(Table(patch), p).value))
    {
      var active := Active(Base(), remote, dismissed, envSwitch);
      FirstTouchingDecides(active, k, Base(), p);
      MergeAllFrame(MergeAll(Base(), ActiveLayers(active)), Requirements(), p);
    }
  }

  // ---------------------------------------------------------------- requirements on their own

  function MergedRequirements(layers: seq<Value>): Option<Value> {
    if layers == [] then None else Some(MergeAll(layers[0], layers[1..]))
  }

  method LoadMergedRequirements(layers: seq<Value>) returns (merged: Option<Value>)
    ensures merged == MergedRequirements(layers)
  {
    if layers == [] {
      return None;
    }
    var value := layers[0];
    for i := 1 to |layers|
      invariant MergeAll(layers[0], layers[1..]) == MergeAll(value, layers[i..])
    {
      assert layers[i..][1..] == layers[i + 1..];
      value := DeepMerge(value, layers[i]);
    }
    return Some(value);
  }

  /** The merged requirements hold, at every path, what the last layer that bears on it decides, with
      nothing below; without layers there are none. */
  lemma LastLayerReported(layers: seq<Value>, k: nat, p: Path)
    requires k < |layers| && Bears(layers[k], p) != Untouched && AllUntouched(layers[k + 1..], p)
    ensures MergedRequirements(layers).Some? && MergedRequirements([]) == None
    ensures At(MergedRequirements(layers).value, p) == Overlay(layers[k], p, Absent)
  {
    if k > 0 {
      assert layers[1..][k - 1] == layers[k] && layers[1..][k..] == layers[k + 1..];
      LastBearingDecides(layers[0], layers[1..], k - 1, p);
    } else {
      MergeAllFrame(layers[0], layers[1..], p);
      BearsAlone(layers[0], p);
    }
  }

  function TakeEach(raw: seq<Value>): seq<Value> {
    if raw == [] then [] else [Without(raw[0], "campaigns")] + TakeEach(raw[1..])
  }

  /** What `load_merged_requirements` reports outside `campaigns` is what the effective config
      holds, although the two start from layers with and without their campaign arrays. */
  lemma ReportedRequirementsHold(
      layers: ConfigLayers, raw: seq<Value>,
      remote: seq<Campaign>, dismissed: set<string>, envSwitch: Option<bool>, p: Path)
    requires layers.Requirements() == TakeEach(raw) && raw != []
    requires p != [] && p[0] != "campaigns"
    requires At(MergedRequirements(raw).value, p) != Absent
    ensures At(layers.Effective(remote, dismissed, envSwitch), p) == At(MergedRequirements(raw).value, p)
  {
    var taken := TakeEach(raw);
    assert taken[1..] == TakeEach(raw[1..]);
    MergeAllAt(raw[0], raw[1..], p);
    MergeAllAt(taken[0], taken[1..], p);
    WithoutAt(raw[0], p);
    TakeEachOverlays(raw[1..], p, At(raw[0], p));
    layers.RequirementsWin(remote, dismissed, envSwitch, p);
  }

  lemma WithoutAt(v: Value, p: Path)
    requires p != [] && p[0] != "campaigns"
    ensures At(Without(v, "campaigns"), p) == At(v, p)
  {
  }

  lemma {:induction false} TakeEachOverlays(raw: seq<Value>, p: Path, prior: Node)
    requires p != [] && p[0] != "campaigns"
    ensures OverlayAll(TakeEach(raw), p, prior) == OverlayAll(raw, p, prior)
  {
    if raw != [] {
      WithoutBears(raw[0], "campaigns", p);
      TakeEachOverlays(raw[1..], p, Overlay(raw[0], p, prior));
    }
  }

  /** Re-applying the requirements one by one is not the same as merging their fold: a table
      hidden by the first layer's scalar comes back when the fold is merged in one go. */
  lemma OneGoDiffers()
    ensures
      var base := Table(map["k" := Table(map["x" := Leaf(Integer(1))])]);
      var user := Table(map["k" := Leaf(Integer(5))]);
      var system := Table(map["k" := Table(map["y" := Leaf(Integer(2))])]);
      && Get(MergeAll(base, [user, system]), ["k", "x"]) == None
      && Get(Merge(base, MergedRequirements([user, system]).value), ["k", "x"]) == Some(Leaf(Integer(1)))
  {
    var base := Table(map["k" := Table(map["x" := Leaf(Integer(1))])]);
    var user := Table(map["k" := Leaf(Integer(5))]);
    var system := Table(map["k" := Table(map["y" := Leaf(Integer(2))])]);
    var p := ["k", "x"];
    assert p[1..] == ["x"] && p[1..][1..] == [];
    assert [user, system][1..] == [system] && [system][1..] == [];
    assert MergeAll(base, [user, system]) == MergeAll(Merge(base, user), [system]);
    assert MergeAll(Merge(base, user), [system]) == MergeAll(Merge(Merge(base, user), system), []);
    assert MergeAll(user, [system]) == MergeAll(Merge(user, system), []);
    PathLaw(Merge(base, user), system, p);
    PathLaw(base, user, p);
    PathLaw(base, Merge(user, system), p);
    assert Merge(user, system) == system;
  }
}
