/** Choice of the partition profile: filter the feasible ones, score them by evictions, take the best. */
module ConfigSelector {
  import opened Common
  import opened MigLayout

  /** The length of "nvidia.com/mig-", which the filter cuts off without looking at it. */
  const PREFIX_LENGTH := 15

  type Locations = map<int, seq<Pod>>

  /** Shorter resource names make the filter's slice expression panic. */
  predicate Sliceable(request: map<string, int>) {
    forall r :: r in request ==> |r| >= PREFIX_LENGTH
  }

  predicate Feasible(groups: seq<MigConfig>, request: map<string, int>)
    requires Sliceable(request)
  {
    forall r :: r in request ==> request[r] <= Supply(groups, r[PREFIX_LENGTH..])
  }

  ghost function ChangedGPUs(old_: Layout, new_: Layout): set<int> {
    set id | id in new_ && Changed(old_, new_, id)
  }

  /** The number of pod placements on the GPUs that a change of layout repartitions. */
  ghost function Evictions(old_: Layout, new_: Layout, podLocation: Locations): int {
    SumOver(ChangedGPUs(old_, new_), id => |GetSeq(podLocation, id)|)
  }

  method GetBestConfigFilter(cfgs: MigConfigs, request: map<string, int>) returns (candidates: seq<string>)
    requires Sliceable(request)
    ensures NoDup(candidates)
    ensures forall p :: p in candidates <==> p in cfgs && Feasible(cfgs[p], request)
  {
    candidates := [];
    var profiles := cfgs.Keys;
    while profiles != {}
      invariant profiles <= cfgs.Keys
      invariant NoDup(candidates)
      invariant forall p :: p in candidates <==> p in cfgs && p !in profiles && Feasible(cfgs[p], request)
      decreases |profiles|
    {
      var profileName := Pick(profiles);
      profiles := profiles - {profileName};
      var migConfig := cfgs[profileName];
      var find := true;
      var requests := request.Keys;
      while requests != {}
        invariant requests <= request.Keys
        invariant find
        invariant forall r :: r in request && r !in requests ==> request[r] <= Supply(migConfig, r[PREFIX_LENGTH..])
        decreases |requests|
      {
        var requestMigSlice := Pick(requests);
        requests := requests - {requestMigSlice};
        var sliceName := requestMigSlice[PREFIX_LENGTH..];
        var cnt := 0;
        for g := 0 to |migConfig|
          invariant cnt == Supply(migConfig[..g], sliceName)
        {
          assert migConfig[..g + 1][..g] == migConfig[..g];
          cnt := cnt + Get(migConfig[g].migDevices, sliceName) * |migConfig[g].devices|;
        }
        assert migConfig[..|migConfig|] == migConfig;
        if cnt < request[requestMigSlice] {
          find := false;
          break;
        }
      }
      if find {
        candidates := candidates + [profileName];
      }
    }
  }

  method GetBestConfigScore(cfgs: MigConfigs, candidates: seq<string>, podLocation: Locations, curConfig: string)
    returns (scores: map<string, int>)
    ensures scores.Keys == Elements(candidates)
    ensures forall c :: c in scores ==>
              scores[c] == -Evictions(ProfileLayout(cfgs, curConfig), ProfileLayout(cfgs, c), podLocation)
  {
    scores := map[];
    for i := 0 to |candidates|
      invariant scores.Keys == Elements(candidates[..i])
      invariant forall c :: c in scores ==>
                  scores[c] == -Evictions(ProfileLayout(cfgs, curConfig), ProfileLayout(cfgs, c), podLocation)
    {
      var gpuIDs := GetReconfigGPU(cfgs, curConfig, candidates[i]);
      ghost var size := id => |GetSeq(podLocation, id)|;
      var score := 0;
      for k := 0 to |gpuIDs|
        invariant score == -SumSeq(gpuIDs[..k], size)
      {
        assert gpuIDs[..k + 1][..k] == gpuIDs[..k];
        score := score - |GetSeq(podLocation, gpuIDs[k])|;
      }
      EvictionsOfList(gpuIDs, ProfileLayout(cfgs, curConfig), ProfileLayout(cfgs, candidates[i]), podLocation);
      assert gpuIDs[..|gpuIDs|] == gpuIDs;
      scores := scores[candidates[i] := score];
      assert candidates[..i + 1] == candidates[..i] + [candidates[i]];
    }
    assert candidates[..|candidates|] == candidates;
  }

  /** Whatever order the changed GPUs are listed in, their placements add up to the evictions. */
  lemma EvictionsOfList(gpuIDs: seq<int>, old_: Layout, new_: Layout, podLocation: Locations)
    requires NoDup(gpuIDs)
    requires forall id :: id in gpuIDs <==> Changed(old_, new_, id)
    ensures SumSeq(gpuIDs, id => |GetSeq(podLocation, id)|) == Evictions(old_, new_, podLocation)
  {
    forall id: int ensures id in Elements(gpuIDs) <==> id in ChangedGPUs(old_, new_) {
    }
    assert Elements(gpuIDs) == ChangedGPUs(old_, new_);
    SumSeqIsSumOver(gpuIDs, id => |GetSeq(podLocation, id)|);
  }

  /** The evictions of going from the current profile to another one. */
  ghost function EvictionsTo(cfgs: MigConfigs, podLocation: Locations, curConfig: string, p: string): int {
    Evictions(ProfileLayout(cfgs, curConfig), ProfileLayout(cfgs, p), podLocation)
  }

  ghost predicate IsOptimal(cfgs: MigConfigs, request: map<string, int>, podLocation: Locations, curConfig: string, best: string)
    requires Sliceable(request)
  {
    && best in cfgs && Feasible(cfgs[best], request)
    && forall p :: p in cfgs && Feasible(cfgs[p], request) ==>
         EvictionsTo(cfgs, podLocation, curConfig, best) <= EvictionsTo(cfgs, podLocation, curConfig, p)
  }

  /** The profile with the empty name is feasible and evicts fewer pods than every other feasible profile. */
  ghost predicate EmptyNameWins(cfgs: MigConfigs, request: map<string, int>, podLocation: Locations, curConfig: string)
    requires Sliceable(request)
  {
    && "" in cfgs && Feasible(cfgs[""], request)
    && forall p :: p in cfgs && p != "" && Feasible(cfgs[p], request) ==>
         EvictionsTo(cfgs, podLocation, curConfig, "") < EvictionsTo(cfgs, podLocation, curConfig, p)
  }

  /** The loop that picks the highest score, with the empty name standing for "nothing chosen yet". */
  method HighestScore(scores: map<string, int>) returns (maxConfigName: string)
    ensures maxConfigName != "" ==> maxConfigName in scores
    ensures maxConfigName == "" ==> forall c :: c in scores && c != "" ==> "" in scores && scores[c] < scores[""]
    ensures maxConfigName != "" ==> forall c :: c in scores && c != "" ==>
              scores[c] <= scores[maxConfigName] || ("" in scores && scores[c] < scores[""])
  {
    var maxScore := 0;
    maxConfigName := "";
    var names := scores.Keys;
    while names != {}
      invariant names <= scores.Keys
      invariant maxConfigName != "" ==> maxConfigName in scores && scores[maxConfigName] == maxScore
      invariant maxConfigName == "" && "" in scores && "" !in names ==> maxScore == scores[""]
      invariant maxConfigName == "" ==>
                  forall c :: c in scores && c !in names && c != "" ==> "" in scores && scores[c] < scores[""]
      invariant maxConfigName != "" ==> forall c :: c in scores && c !in names && c != "" ==>
                  scores[c] <= maxScore || ("" in scores && scores[c] < scores[""])
      decreases |names|
    {
      var configName := Pick(names);
      names := names - {configName};
      if scores[configName] > maxScore || maxConfigName == "" {
        maxScore := scores[configName];
        maxConfigName := configName;
      }
    }
  }

  /**
   * For every map order: unless the profile with the empty name would be the only best choice, the call fails iff
   * nothing is feasible and otherwise returns an optimal profile; and if it would be, the call never returns an
   * optimal profile.
   */
  method GetBestConfig(cfgs: MigConfigs, request: map<string, int>, podLocation: Locations, curConfig: string)
    returns (best: Option<string>)
    requires Sliceable(request)
    ensures best.Some? ==> best.value in cfgs && Feasible(cfgs[best.value], request)
    ensures !EmptyNameWins(cfgs, request, podLocation, curConfig) ==>
              (best.None? <==> forall p :: p in cfgs ==> !Feasible(cfgs[p], request))
    ensures best.Some? ==>
              (IsOptimal(cfgs, request, podLocation, curConfig, best.value)
               <==> !EmptyNameWins(cfgs, request, podLocation, curConfig))
  {
    var candidates := GetBestConfigFilter(cfgs, request);
    var scores := GetBestConfigScore(cfgs, candidates, podLocation, curConfig);
    assert forall c :: c in scores <==> c in candidates;
    assert forall c :: c in scores <==> c in cfgs && Feasible(cfgs[c], request);
    assert forall c :: c in scores ==> scores[c] == -EvictionsTo(cfgs, podLocation, curConfig, c);
    var maxConfigName := HighestScore(scores);
    best := if maxConfigName == "" then None else Some(maxConfigName);
    ChoiceIsOptimal(cfgs, request, podLocation, curConfig, scores, maxConfigName);
  }

  lemma ChoiceIsOptimal(cfgs: MigConfigs, request: map<string, int>, podLocation: Locations, curConfig: string,
                        scores: map<string, int>, best: string)
    requires Sliceable(request)
    requires forall c :: c in scores <==> c in cfgs && Feasible(cfgs[c], request)
    requires forall c :: c in scores ==> scores[c] == -EvictionsTo(cfgs, podLocation, curConfig, c)
    requires best != "" ==> best in scores
    requires best == "" ==> forall c :: c in scores && c != "" ==> "" in scores && scores[c] < scores[""]
    requires best != "" ==> forall c :: c in scores && c != "" ==>
               scores[c] <= scores[best] || ("" in scores && scores[c] < scores[""])
    ensures !EmptyNameWins(cfgs, request, podLocation, curConfig) ==>
              (best == "" <==> forall p :: p in cfgs ==> !Feasible(cfgs[p], request))
    ensures best != "" ==>
              (IsOptimal(cfgs, request, podLocation, curConfig, best) <==> !EmptyNameWins(cfgs, request, podLocation, curConfig))
  {
    hide Feasible, EvictionsTo;
    if best == "" && !EmptyNameWins(cfgs, request, podLocation, curConfig) {
      assert forall c :: c in scores ==> c != "";
    }
    if best != "" {
      assert Feasible(cfgs[best], request);
      if "" in scores && !EmptyNameWins(cfgs, request, podLocation, curConfig) {
        var c :| c in cfgs && c != "" && Feasible(cfgs[c], request)
                 && EvictionsTo(cfgs, podLocation, curConfig, "") >= EvictionsTo(cfgs, podLocation, curConfig, c);
        assert c in scores;
        assert scores[""] <= scores[c] <= scores[best];
      }
    }
  }

  // ---------------------------------------------------------------- the list of pods to stop

  function StopList(gpuIDs: seq<int>, podLocation: Locations): seq<Pod> {
    if gpuIDs == [] then []
    else StopList(gpuIDs[..|gpuIDs| - 1], podLocation) + GetSeq(podLocation, gpuIDs[|gpuIDs| - 1])
  }

  lemma {:induction false} StopListMembers(gpuIDs: seq<int>, podLocation: Locations, p: Pod)
    ensures p in StopList(gpuIDs, podLocation) <==> exists id :: id in gpuIDs && p in GetSeq(podLocation, id)
  {
    if gpuIDs != [] {
      var init, last := gpuIDs[..|gpuIDs| - 1], gpuIDs[|gpuIDs| - 1];
      StopListMembers(init, podLocation, p);
      assert gpuIDs == init + [last];
    }
  }

  lemma {:induction false} StopListLength(gpuIDs: seq<int>, podLocation: Locations)
    ensures |StopList(gpuIDs, podLocation)| == SumSeq(gpuIDs, id => |GetSeq(podLocation, id)|)
  {
    if gpuIDs != [] {
      StopListLength(gpuIDs[..|gpuIDs| - 1], podLocation);
    }
  }

  /** A layout compared with itself repartitions nothing, so it evicts nobody. */
  lemma NoChangeNoEviction(layout: Layout, podLocation: Locations)
    ensures Evictions(layout, layout, podLocation) == 0
  {
    assert ChangedGPUs(layout, layout) == {};
  }

  datatype Plan = Plan(updateConfig: string, gpuIDs: seq<int>, stopPods: seq<Pod>)

  /** What Reconcile relies on after it has decided: a feasible profile, the GPUs it changes, and exactly their pods. */
  ghost predicate IsPlan(cfgs: MigConfigs, request: map<string, int>, podLocation: Locations, curConfig: string, plan: Plan)
    requires Sliceable(request)
  {
    var cur, best := ProfileLayout(cfgs, curConfig), ProfileLayout(cfgs, plan.updateConfig);
    && plan.updateConfig in cfgs && Feasible(cfgs[plan.updateConfig], request)
    && NoDup(plan.gpuIDs)
    && (forall id :: id in plan.gpuIDs <==> Changed(cur, best, id))
    && plan.stopPods == StopList(plan.gpuIDs, podLocation)
    && |plan.stopPods| == Evictions(cur, best, podLocation)
    && (IsOptimal(cfgs, request, podLocation, curConfig, plan.updateConfig)
        <==> !EmptyNameWins(cfgs, request, podLocation, curConfig))
  }

  /** The decision part of Reconcile: profile, GPUs to repartition, pods to stop. */
  method ChoosePlan(cfgs: MigConfigs, request: map<string, int>, podLocation: Locations, curConfig: string)
    returns (plan: Option<Plan>)
    requires Sliceable(request)
    ensures !EmptyNameWins(cfgs, request, podLocation, curConfig) ==>
              (plan.None? <==> forall p :: p in cfgs ==> !Feasible(cfgs[p], request))
    ensures plan.Some? ==> IsPlan(cfgs, request, podLocation, curConfig, plan.value)
  {
    var best := GetBestConfig(cfgs, request, podLocation, curConfig);
    if best.None? {
      return None;
    }
    var gpuIDs := GetReconfigGPU(cfgs, curConfig, best.value);
    var stopPods := [];
    for i := 0 to |gpuIDs|
      invariant stopPods == StopList(gpuIDs[..i], podLocation)
    {
      assert gpuIDs[..i + 1][..i] == gpuIDs[..i];
      stopPods := stopPods + GetSeq(podLocation, gpuIDs[i]);
    }
    assert gpuIDs[..|gpuIDs|] == gpuIDs;
    EvictionsOfList(gpuIDs, ProfileLayout(cfgs, curConfig), ProfileLayout(cfgs, best.value), podLocation);
    StopListLength(gpuIDs, podLocation);
    plan := Some(Plan(best.value, gpuIDs, stopPods));
  }

  /** If the current profile can serve the request, nobody is stopped, whichever profile is chosen. */
  lemma FeasibleCurrentProfileStopsNobody(cfgs: MigConfigs, request: map<string, int>, podLocation: Locations,
                                          curConfig: string, plan: Plan)
    requires Sliceable(request) && IsPlan(cfgs, request, podLocation, curConfig, plan)
    requires !EmptyNameWins(cfgs, request, podLocation, curConfig)
    requires curConfig in cfgs && Feasible(cfgs[curConfig], request)
    ensures plan.stopPods == []
  {
    NoChangeNoEviction(ProfileLayout(cfgs, curConfig), podLocation);
  }

  /** If no listing of any use is overwritten, the layout of a feasible profile really offers every requested count. */
  lemma FeasibleLayoutHolds(groups: seq<MigConfig>, request: map<string, int>, r: string)
    requires Sliceable(request) && Feasible(groups, request) && r in request
    requires forall g :: 0 <= g < |groups| ==> Get(groups[g].migDevices, r[PREFIX_LENGTH..]) >= 0
    requires NothingOverwritten(ListingsOf(groups), r[PREFIX_LENGTH..])
    ensures request[r] <= LayoutTotal(LayoutOf(groups), r[PREFIX_LENGTH..])
  {
    OverlapOversells(groups, r[PREFIX_LENGTH..]);
  }

  lemma ResourceNameOf(slice: string) returns (r: string)
    ensures |r| >= PREFIX_LENGTH && r[PREFIX_LENGTH..] == slice
  {
    var prefix := seq(PREFIX_LENGTH, _ => '-');
    r := prefix + slice;
  }

  /** Whatever is requested, a feasible profile offers it after the expansion, exactly if nothing of use is overwritten. */
  lemma FeasibleIsEnoughIffNothingOverwritten(groups: seq<MigConfig>, slice: string)
    requires forall g :: 0 <= g < |groups| ==> Get(groups[g].migDevices, slice) >= 0
    ensures NothingOverwritten(ListingsOf(groups), slice)
            <==> forall request: map<string, int>, r ::
                   Sliceable(request) && Feasible(groups, request) && r in request && r[PREFIX_LENGTH..] == slice ==>
                     request[r] <= LayoutTotal(LayoutOf(groups), slice)
  {
    hide NothingOverwritten, Supply, LayoutTotal, LayoutOf, ListingsOf;
    OverlapOversells(groups, slice);
    SupplyBoundsLayout(groups, slice);
    var r := ResourceNameOf(slice);
    var request := map[r := Supply(groups, slice)];
    assert Sliceable(request) && Feasible(groups, request) && r in request;
  }

  lemma SharedDevice(g: MigConfig, slices: map<string, int>, slice: string)
    requires g == MigConfig([0], true, slices) && Get(slices, slice) > 0
    ensures Supply([g, g], slice) == 2 * Get(slices, slice)
    ensures LayoutTotal(LayoutOf([g, g]), slice) < 2 * Get(slices, slice)
  {
    hide LayoutTotal, LayoutOf;
    assert [g, g][..1] == [g] && [g][..0] == [];
    assert Supply([g], slice) == Get(slices, slice);
    var ls := ListingsOf([g, g]);
    assert ListingsOfGroup([0], slices) == [Listing(0, slices)];
    assert ListingsOf([g]) == [Listing(0, slices)];
    assert ls[0].device == ls[1].device && ls[0].slices == slices;
    OverlapOversells([g, g], slice);
    SupplyBoundsLayout([g, g], slice);
  }

  /** A device listed by two groups makes the filter accept a profile whose layout is too small. */
  lemma OverlappingDevicesOversell()
    ensures var groups := [MigConfig([0], true, map["2g.10gb" := 1]), MigConfig([0], true, map["2g.10gb" := 1])];
            && Sliceable(map["nvidia.com/mig-2g.10gb" := 2])
            && Feasible(groups, map["nvidia.com/mig-2g.10gb" := 2])
            && LayoutTotal(LayoutOf(groups), "2g.10gb") < 2
  {
    hide LayoutTotal, LayoutOf, Supply;
    var slices := map["2g.10gb" := 1];
    SharedDevice(MigConfig([0], true, slices), slices, "2g.10gb");
    assert "nvidia.com/mig-2g.10gb"[PREFIX_LENGTH..] == "2g.10gb";
  }
}
