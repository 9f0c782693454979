/** MIG partition profiles, their expansion per GPU, and the comparison that decides which GPUs are repartitioned. */
module MigLayout {
  import opened Arithmetic
  import opened Common

  /** One group of a profile: these devices all get this many slices of each type. */
  datatype MigConfig = MigConfig(devices: seq<int>, migEnabled: bool, migDevices: map<string, int>)

  type MigConfigs = map<string, seq<MigConfig>>

  /** Slice counts by slice type, for each GPU. */
  type Layout = map<int, map<string, int>>

  function Count(layout: Layout, id: int, slice: string): int {
    if id in layout then Get(layout[id], slice) else 0
  }

  function Assign(config: Layout, devices: seq<int>, slices: map<string, int>): Layout {
    if devices == [] then config
    else Assign(config, devices[..|devices| - 1], slices)[devices[|devices| - 1] := slices]
  }

  function LayoutOf(groups: seq<MigConfig>): Layout {
    if groups == [] then map[]
    else
      var last := groups[|groups| - 1];
      Assign(LayoutOf(groups[..|groups| - 1]), last.devices, last.migDevices)
  }

  /** A profile that does not exist expands to no GPUs at all. */
  function ProfileLayout(cfgs: MigConfigs, name: string): Layout {
    if name in cfgs then LayoutOf(cfgs[name]) else map[]
  }

  method GetConfig(cfgs: MigConfigs, configName: string) returns (config: Layout)
    ensures config == ProfileLayout(cfgs, configName)
  {
    config := map[];
    var rest := cfgs.Keys;
    while rest != {}
      invariant rest <= cfgs.Keys
      invariant config == if configName in rest then map[] else ProfileLayout(cfgs, configName)
      decreases |rest|
    {
      var profileName := Pick(rest);
      rest := rest - {profileName};
      if profileName == configName {
        var migConfig := cfgs[profileName];
        for g := 0 to |migConfig|
          invariant config == LayoutOf(migConfig[..g])
        {
          var deviceConfig := migConfig[g];
          for k := 0 to |deviceConfig.devices|
            invariant config == Assign(LayoutOf(migConfig[..g]), deviceConfig.devices[..k], deviceConfig.migDevices)
          {
            assert deviceConfig.devices[..k + 1][..k] == deviceConfig.devices[..k];
            config := config[deviceConfig.devices[k] := deviceConfig.migDevices];
          }
          assert deviceConfig.devices[..|deviceConfig.devices|] == deviceConfig.devices;
          assert migConfig[..g + 1][..g] == migConfig[..g];
        }
        assert migConfig[..|migConfig|] == migConfig;
      }
    }
  }

  lemma {:induction false} AssignEntries(config: Layout, devices: seq<int>, slices: map<string, int>)
    ensures forall d :: d in Assign(config, devices, slices) <==> d in config || d in devices
    ensures forall d :: d in devices ==> Assign(config, devices, slices)[d] == slices
    ensures forall d :: d in config && d !in devices ==> Assign(config, devices, slices)[d] == config[d]
  {
    if devices != [] {
      AssignEntries(config, devices[..|devices| - 1], slices);
      assert devices == devices[..|devices| - 1] + [devices[|devices| - 1]];
    }
  }

  /** A GPU is in the expansion iff some group lists it, and the last group listing it decides its slices. */
  lemma {:induction false} LastGroupDecides(groups: seq<MigConfig>, d: int)
    ensures d in LayoutOf(groups) <==> exists g :: 0 <= g < |groups| && d in groups[g].devices
    ensures forall g :: 0 <= g < |groups| && d in groups[g].devices
              && (forall h :: g < h < |groups| ==> d !in groups[h].devices)
              ==> LayoutOf(groups)[d] == groups[g].migDevices
  {
    if groups != [] {
      var init, last := groups[..|groups| - 1], groups[|groups| - 1];
      LastGroupDecides(init, d);
      AssignEntries(LayoutOf(init), last.devices, last.migDevices);
      assert forall g :: 0 <= g < |init| ==> init[g] == groups[g];
      if d !in last.devices {
        forall g | 0 <= g < |groups| && d in groups[g].devices && (forall h :: g < h < |groups| ==> d !in groups[h].devices)
          ensures LayoutOf(groups)[d] == groups[g].migDevices
        {
          assert d in init[g].devices;
        }
      }
    }
  }

  /** The comparison of `getReconfigGPU`: it looks only at the slice types named by the new layout. */
  predicate Changed(old_: Layout, new_: Layout, id: int) {
    id in new_ && exists slice :: slice in new_[id] && new_[id][slice] != Count(old_, id, slice)
  }

  method GetReconfigGPU(cfgs: MigConfigs, oldConfig: string, newConfig: string) returns (gpuIDs: seq<int>)
    ensures NoDup(gpuIDs)
    ensures forall id :: id in gpuIDs <==> Changed(ProfileLayout(cfgs, oldConfig), ProfileLayout(cfgs, newConfig), id)
  {
    var oldMigConfig := GetConfig(cfgs, oldConfig);
    var newMigConfig := GetConfig(cfgs, newConfig);
    gpuIDs := [];
    var rest: set<int> := newMigConfig.Keys;
    while rest != {}
      invariant rest <= newMigConfig.Keys
      invariant NoDup(gpuIDs)
      invariant forall id :: id in gpuIDs <==> id !in rest && Changed(oldMigConfig, newMigConfig, id)
      decreases |rest|
    {
      var id := Pick(rest);
      rest := rest - {id};
      var config := newMigConfig[id];
      var keys := config.Keys;
      ghost var before := gpuIDs;
      while keys != {}
        invariant keys <= config.Keys
        invariant gpuIDs == before
        invariant forall key :: key in config && key !in keys ==> config[key] == Count(oldMigConfig, id, key)
        decreases |keys|
      {
        var key := Pick(keys);
        keys := keys - {key};
        if config[key] != Count(oldMigConfig, id, key) {
          gpuIDs := gpuIDs + [id];
          break;
        }
      }
    }
  }

  // ---------------------------------------------------------------- GPUs that are kept

  ghost function Weighted(slices: map<string, int>, weight: string -> int): int {
    SumOver(slices.Keys, (k: string) => Get(slices, k) * weight(k))
  }

  lemma WeightedOver(slices: map<string, int>, weight: string -> int, all: set<string>)
    requires slices.Keys <= all
    ensures Weighted(slices, weight) == SumOver(all, (k: string) => Get(slices, k) * weight(k))
  {
    SumSuperset(slices.Keys, all, (k: string) => Get(slices, k) * weight(k));
  }

  /** The slices of a GPU; none if the layout does not mention it. */
  function SlicesAt(layout: Layout, id: int): map<string, int> {
    if id in layout then layout[id] else map[]
  }

  /** A GPU that is not repartitioned keeps all its slices iff the two layouts have the same total weight. */
  lemma KeptGpuIsIdenticalIffSameWeight(old_: Layout, new_: Layout, id: int, weight: string -> int)
    requires !Changed(old_, new_, id)
    requires forall slice :: weight(slice) > 0
    requires forall slice :: Count(old_, id, slice) >= 0
    ensures forall slice :: slice in SlicesAt(new_, id) ==> Count(old_, id, slice) == new_[id][slice]
    ensures Weighted(SlicesAt(old_, id), weight) == Weighted(SlicesAt(new_, id), weight)
            <==> forall slice :: Count(old_, id, slice) == Count(new_, id, slice)
  {
    var was, now := SlicesAt(old_, id), SlicesAt(new_, id);
    var all := was.Keys + now.Keys;
    var f := (k: string) => Get(now, k) * weight(k);
    var g := (k: string) => Get(was, k) * weight(k);
    WeightedOver(was, weight, all);
    WeightedOver(now, weight, all);
    forall k | k in all
      ensures f(k) <= g(k)
      ensures f(k) == g(k) ==> Count(new_, id, k) == Count(old_, id, k)
    {
      assert Count(old_, id, k) >= 0;
      ProductOrder(Get(now, k), Get(was, k), weight(k));
      if f(k) == g(k) {
        ProductEqual(Get(now, k), Get(was, k), weight(k));
      }
    }
    SumLe(all, f, g);
    if Weighted(was, weight) == Weighted(now, weight) {
      forall slice ensures Count(old_, id, slice) == Count(new_, id, slice) {
        if slice in all { assert f(slice) == g(slice); }
      }
    }
    if forall slice :: Count(old_, id, slice) == Count(new_, id, slice) {
      forall k | k in all ensures f(k) == g(k) {
        assert Count(old_, id, k) == Count(new_, id, k);
      }
      SumEq(all, f, g);
    }
  }

  /** Without equal weights the comparison misses a slice type that the new layout no longer has. */
  lemma DroppedSliceTypeIsMissed()
    ensures var was: Layout := map[0 := map["1g.5gb" := 1, "2g.10gb" := 1]];
            var next: Layout := map[0 := map["1g.5gb" := 1]];
            !Changed(was, next, 0) && Count(was, 0, "2g.10gb") != Count(next, 0, "2g.10gb")
  {
  }

  // ---------------------------------------------------------------- two ways to count capacity

  /** What the filter adds up: slice count times number of listed devices, group by group. */
  function Supply(groups: seq<MigConfig>, slice: string): int {
    if groups == [] then 0
    else
      var last := groups[|groups| - 1];
      Supply(groups[..|groups| - 1], slice) + Get(last.migDevices, slice) * |last.devices|
  }

  /** What the expanded layout really offers, summed over its GPUs. */
  ghost function LayoutTotal(layout: Layout, slice: string): int {
    SumOver(layout.Keys, id => Count(layout, id, slice))
  }

  function AllDevices(groups: seq<MigConfig>): seq<int> {
    if groups == [] then [] else AllDevices(groups[..|groups| - 1]) + groups[|groups| - 1].devices
  }

  lemma TotalAfterUpdate(layout: Layout, d: int, slices: map<string, int>, slice: string)
    ensures LayoutTotal(layout[d := slices], slice)
            == LayoutTotal(layout, slice) - Count(layout, d, slice) + Get(slices, slice)
  {
    var next := layout[d := slices];
    var f := id => Count(layout, id, slice);
    var g := id => Count(next, id, slice);
    var others := layout.Keys - {d};
    assert next.Keys == others + {d};
    SumInsert(others, d, g);
    SumEq(others, f, g);
    if d in layout {
      SumRemove(layout.Keys, d, f);
    } else {
      assert others == layout.Keys;
    }
  }

  predicate NonNegative(config: Layout, slice: string) {
    forall id :: id in config ==> Count(config, id, slice) >= 0
  }

  /** One device of one group. The expansion writes the listings of all groups one after the other. */
  datatype Listing = Listing(device: int, slices: map<string, int>)

  function ListingsOfGroup(devices: seq<int>, slices: map<string, int>): (r: seq<Listing>)
    ensures |r| == |devices| && forall i :: 0 <= i < |r| ==> r[i] == Listing(devices[i], slices)
  {
    if devices == [] then []
    else ListingsOfGroup(devices[..|devices| - 1], slices) + [Listing(devices[|devices| - 1], slices)]
  }

  function ListingsOf(groups: seq<MigConfig>): seq<Listing> {
    if groups == [] then []
    else
      var last := groups[|groups| - 1];
      ListingsOf(groups[..|groups| - 1]) + ListingsOfGroup(last.devices, last.migDevices)
  }

  function Expand(listings: seq<Listing>): Layout {
    if listings == [] then map[]
    else
      var last := listings[|listings| - 1];
      Expand(listings[..|listings| - 1])[last.device := last.slices]
  }

  function Provided(listings: seq<Listing>, slice: string): int {
    if listings == [] then 0
    else Provided(listings[..|listings| - 1], slice) + Get(listings[|listings| - 1].slices, slice)
  }

  /** Every listing of a device that a later listing of the same device overwrites provides none of this slice type. */
  predicate NothingOverwritten(listings: seq<Listing>, slice: string) {
    forall i, j :: 0 <= i < j < |listings| && listings[i].device == listings[j].device ==>
      Get(listings[i].slices, slice) == 0
  }

  predicate NoneNegative(listings: seq<Listing>, slice: string) {
    forall i :: 0 <= i < |listings| ==> Get(listings[i].slices, slice) >= 0
  }

  /** The last listing of a device decides what it has. */
  lemma {:induction false} LastListingDecides(listings: seq<Listing>, d: int)
    ensures d in Expand(listings) <==> exists i :: 0 <= i < |listings| && listings[i].device == d
    ensures d in Expand(listings) ==>
              exists k :: 0 <= k < |listings| && listings[k].device == d && Expand(listings)[d] == listings[k].slices
                          && forall i :: k < i < |listings| ==> listings[i].device != d
  {
    if listings != [] {
      var init, last := listings[..|listings| - 1], listings[|listings| - 1];
      LastListingDecides(init, d);
      assert forall i :: 0 <= i < |init| ==> init[i] == listings[i];
      assert listings[|init|] == last;
    }
  }

  /** Adding a listing overwrites nothing of value iff its device had none of the slice type before. */
  lemma OverwritesStep(init: seq<Listing>, last: Listing, slice: string)
    requires NothingOverwritten(init, slice)
    ensures NothingOverwritten(init + [last], slice) <==> Count(Expand(init), last.device, slice) == 0
  {
    var listings, d := init + [last], last.device;
    LastListingDecides(init, d);
    assert forall i :: 0 <= i < |init| ==> init[i] == listings[i];
    if d in Expand(init) {
      var k :| 0 <= k < |init| && init[k].device == d && Expand(init)[d] == init[k].slices
               && forall i :: k < i < |init| ==> init[i].device != d;
      assert listings[k].device == listings[|init|].device;
      if Count(Expand(init), d, slice) == 0 {
        forall i, j | 0 <= i < j < |listings| && listings[i].device == listings[j].device
          ensures Get(listings[i].slices, slice) == 0
        {
          if j == |init| && i != k {
            assert init[i].device == init[k].device;
          }
        }
      }
    } else {
      assert forall i :: 0 <= i < |init| ==> init[i].device != d;
    }
  }

  /** The expansion offers at most what the listings provide, and as much iff nothing of value is overwritten. */
  lemma {:induction false} ExpandedTotal(listings: seq<Listing>, slice: string)
    requires NoneNegative(listings, slice)
    ensures NonNegative(Expand(listings), slice)
    ensures LayoutTotal(Expand(listings), slice) <= Provided(listings, slice)
    ensures LayoutTotal(Expand(listings), slice) == Provided(listings, slice) <==> NothingOverwritten(listings, slice)
  {
    if listings != [] {
      var init, last := listings[..|listings| - 1], listings[|listings| - 1];
      assert listings == init + [last];
      assert forall i :: 0 <= i < |init| ==> init[i] == listings[i];
      ExpandedTotal(init, slice);
      TotalAfterUpdate(Expand(init), last.device, last.slices, slice);
      if NothingOverwritten(init, slice) {
        OverwritesStep(init, last, slice);
      }
    }
  }

  lemma {:induction false} AssignIsExpand(listings: seq<Listing>, devices: seq<int>, slices: map<string, int>, slice: string)
    ensures Assign(Expand(listings), devices, slices) == Expand(listings + ListingsOfGroup(devices, slices))
    ensures Provided(listings + ListingsOfGroup(devices, slices), slice)
            == Provided(listings, slice) + Get(slices, slice) * |devices|
  {
    if devices == [] {
      assert listings + [] == listings;
    } else {
      var init, d := devices[..|devices| - 1], devices[|devices| - 1];
      var before, all := listings + ListingsOfGroup(init, slices), listings + ListingsOfGroup(devices, slices);
      assert all == before + [Listing(d, slices)];
      assert all[..|all| - 1] == before;
      AssignIsExpand(listings, init, slices, slice);
      MulStep(Get(slices, slice), |init|);
    }
  }

  lemma {:induction false} LayoutIsExpand(groups: seq<MigConfig>, slice: string)
    ensures LayoutOf(groups) == Expand(ListingsOf(groups))
    ensures Supply(groups, slice) == Provided(ListingsOf(groups), slice)
  {
    if groups != [] {
      var init, last := groups[..|groups| - 1], groups[|groups| - 1];
      LayoutIsExpand(init, slice);
      AssignIsExpand(ListingsOf(init), last.devices, last.migDevices, slice);
    }
  }

  lemma {:induction false} ListingsFollowDevices(groups: seq<MigConfig>, slice: string)
    requires forall g :: 0 <= g < |groups| ==> Get(groups[g].migDevices, slice) >= 0
    ensures NoneNegative(ListingsOf(groups), slice)
    ensures |ListingsOf(groups)| == |AllDevices(groups)|
    ensures forall i :: 0 <= i < |ListingsOf(groups)| ==> ListingsOf(groups)[i].device == AllDevices(groups)[i]
  {
    if groups != [] {
      var init := groups[..|groups| - 1];
      assert forall g :: 0 <= g < |init| ==> init[g] == groups[g];
      ListingsFollowDevices(init, slice);
    }
  }

  /** The filter never counts less than the expansion offers, and counts the same when no device is listed twice. */
  lemma SupplyBoundsLayout(groups: seq<MigConfig>, slice: string)
    requires forall g :: 0 <= g < |groups| ==> Get(groups[g].migDevices, slice) >= 0
    ensures NonNegative(LayoutOf(groups), slice)
    ensures LayoutTotal(LayoutOf(groups), slice) <= Supply(groups, slice)
    ensures NoDup(AllDevices(groups)) ==> LayoutTotal(LayoutOf(groups), slice) == Supply(groups, slice)
  {
    LayoutIsExpand(groups, slice);
    ListingsFollowDevices(groups, slice);
    ExpandedTotal(ListingsOf(groups), slice);
  }

  /** The two counts agree exactly if every listing that a later one overwrites provides none of the slice type. */
  lemma OverlapOversells(groups: seq<MigConfig>, slice: string)
    requires forall g :: 0 <= g < |groups| ==> Get(groups[g].migDevices, slice) >= 0
    ensures LayoutTotal(LayoutOf(groups), slice) == Supply(groups, slice)
            <==> NothingOverwritten(ListingsOf(groups), slice)
  {
    LayoutIsExpand(groups, slice);
    ListingsFollowDevices(groups, slice);
    ExpandedTotal(ListingsOf(groups), slice);
  }
}
