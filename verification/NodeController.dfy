/** What the node controller reads from the pods of a node: where they run and which MIG slices they hold. */
module NodeController {
  import opened Common
  import opened Text
  import opened ConfigSelector

  const MIG_RESOURCES := "nvidia.com/mig"

  datatype Phase = Pending | Running | Succeeded | Failed

  /**
   * A pod as the controllers see it. The labels they read are fields: `gpuIDs` and `templateHash`. `reporter` marks a
   * pod of the reporter DaemonSet. `gpus` is the physical allocation by the kubelet, which no controller reads directly.
   */
  datatype PodObject = PodObject(nodeName: string, phase: Phase, gpuIDs: Option<string>, templateHash: Option<string>,
                                 containers: seq<map<string, int>>, reporter: bool, terminating: bool, gpus: seq<int>)

  datatype ListedPod = ListedPod(id: Pod, obj: PodObject)

  /** A Go read of a label: the empty string if it is missing. */
  function LabelValue(value: Option<string>): string {
    if value.Some? then value.value else ""
  }

  predicate Live(obj: PodObject) {
    !obj.phase.Succeeded? && !obj.phase.Failed?
  }

  // ---------------------------------------------------------------- the gpuIDs label

  function Itoas(ids: seq<int>): (texts: seq<string>)
    ensures |texts| == |ids| && forall i :: 0 <= i < |ids| ==> texts[i] == Itoa(ids[i])
  {
    if ids == [] then [] else Itoas(ids[..|ids| - 1]) + [Itoa(ids[|ids| - 1])]
  }

  /** What the reporter writes. */
  function GpuLabel(ids: seq<int>): string {
    Join(Itoas(ids), ',')
  }

  function ParseIds(parts: seq<string>): seq<int> {
    if parts == [] then [] else
      var init := ParseIds(parts[..|parts| - 1]);
      var num := Atoi(parts[|parts| - 1]);
      if num.Some? then init + [num.value] else init
  }

  /** What the node controller reads. */
  function LabelIds(text: string): seq<int> {
    ParseIds(Split(text, ','))
  }

  predicate Int64s(ids: seq<int>) {
    forall i :: 0 <= i < |ids| ==> MIN_INT64 <= ids[i] <= MAX_INT64
  }

  lemma ParseAppended(parts: seq<string>, text: string)
    ensures ParseIds(parts + [text]) == ParseIds(parts) + if Atoi(text).Some? then [Atoi(text).value] else []
  {
    hide Atoi;
    assert (parts + [text])[..|parts|] == parts;
  }

  lemma {:induction false} ParseItoas(ids: seq<int>)
    requires Int64s(ids)
    ensures ParseIds(Itoas(ids)) == ids
  {
    if ids != [] {
      var init, last := ids[..|ids| - 1], ids[|ids| - 1];
      assert ids == init + [last];
      assert Int64s(init) && MIN_INT64 <= last <= MAX_INT64;
      assert Itoas(ids) == Itoas(init) + [Itoa(last)];
      hide *;
      ParseItoas(init);
      ParseAppended(Itoas(init), Itoa(last));
      AtoiOfItoa(last);
    }
  }

  /** The label round trip: the node controller reads exactly the GPU list that the reporter wrote, even an empty one. */
  lemma LabelRoundTrip(ids: seq<int>)
    requires Int64s(ids)
    ensures LabelIds(GpuLabel(ids)) == ids
  {
    if ids == [] {
      assert Split("", ',') == [""];
      assert [""][..0] == [];
    } else {
      forall i | 0 <= i < |ids| ensures ',' !in Itoas(ids)[i] {
        ItoaHasNoComma(ids[i]);
      }
      SplitOfJoin(Itoas(ids), ',');
      ParseItoas(ids);
    }
  }

  // ---------------------------------------------------------------- GetPodLocation

  function AddPlaces(podLocation: Locations, ids: seq<int>, pod: Pod): Locations {
    if ids == [] then podLocation else
      var init := AddPlaces(podLocation, ids[..|ids| - 1], pod);
      init[ids[|ids| - 1] := GetSeq(init, ids[|ids| - 1]) + [pod]]
  }

  function LocationsOf(pods: seq<ListedPod>): Locations {
    if pods == [] then map[] else
      var last := pods[|pods| - 1];
      AddPlaces(LocationsOf(pods[..|pods| - 1]), LabelIds(LabelValue(last.obj.gpuIDs)), last.id)
  }

  method AddPodPlaces(podLocation: Locations, pod: ListedPod) returns (places: Locations)
    ensures places == AddPlaces(podLocation, LabelIds(LabelValue(pod.obj.gpuIDs)), pod.id)
  {
    hide Atoi, GetSeq, LabelValue, Split;
    places := podLocation;
    var ids := Split(LabelValue(pod.obj.gpuIDs), ',');
    ghost var placed: seq<int> := [];
    for k := 0 to |ids|
      invariant placed == ParseIds(ids[..k])
      invariant places == AddPlaces(podLocation, placed, pod.id)
    {
      assert ids[..k + 1][..k] == ids[..k];
      var num := Atoi(ids[k]);
      if num.Some? {
        places := places[num.value := GetSeq(places, num.value) + [pod.id]];
        assert (placed + [num.value])[..|placed|] == placed;
        placed := placed + [num.value];
      }
    }
    assert ids[..|ids|] == ids;
  }

  method GetPodLocation(pods: seq<ListedPod>) returns (podLocation: Locations)
    ensures podLocation == LocationsOf(pods)
  {
    podLocation := map[];
    for i := 0 to |pods|
      invariant podLocation == LocationsOf(pods[..i])
    {
      assert pods[..i + 1][..i] == pods[..i];
      podLocation := AddPodPlaces(podLocation, pods[i]);
    }
    assert pods[..|pods|] == pods;
  }

  lemma CountAppended<T>(xs: seq<T>, last: T, x: T)
    ensures multiset(xs + [last])[x] == multiset(xs)[x] + if x == last then 1 else 0
  {
  }

  lemma PlaceAdded(podLocation: Locations, k: int, pod: Pod, p: Pod, id: int)
    ensures multiset(GetSeq(podLocation[k := GetSeq(podLocation, k) + [pod]], id))[p]
            == multiset(GetSeq(podLocation, id))[p] + if p == pod && k == id then 1 else 0
  {
    CountAppended(GetSeq(podLocation, k), pod, p);
  }

  lemma {:induction false} PlacesAdded(podLocation: Locations, ids: seq<int>, pod: Pod, p: Pod, id: int)
    ensures multiset(GetSeq(AddPlaces(podLocation, ids, pod), id))[p]
            == multiset(GetSeq(podLocation, id))[p] + if p == pod then multiset(ids)[id] else 0
  {
    hide GetSeq;
    if ids != [] {
      var front, last := ids[..|ids| - 1], ids[|ids| - 1];
      PlacesAdded(podLocation, front, pod, p, id);
      PlaceAdded(AddPlaces(podLocation, front, pod), last, pod, p, id);
      CountAppended(front, last, id);
      assert ids == front + [last];
    }
  }

  predicate DistinctPods(pods: seq<ListedPod>) {
    forall i, j :: 0 <= i < j < |pods| ==> pods[i].id != pods[j].id
  }

  lemma {:induction false} UnlistedPodHasNoPlace(pods: seq<ListedPod>, p: Pod, id: int)
    requires forall k :: 0 <= k < |pods| ==> pods[k].id != p
    ensures multiset(GetSeq(LocationsOf(pods), id))[p] == 0
  {
    if pods != [] {
      var init, last := pods[..|pods| - 1], pods[|pods| - 1];
      UnlistedPodHasNoPlace(init, p, id);
      PlacesAdded(LocationsOf(init), LabelIds(LabelValue(last.obj.gpuIDs)), last.id, p, id);
    }
  }

  /** A pod is placed on a GPU once for every occurrence of that GPU in its label: two slices of one GPU count twice. */
  lemma {:induction false} PlacementsOfPod(pods: seq<ListedPod>, k: nat, id: int)
    requires DistinctPods(pods) && k < |pods|
    ensures multiset(GetSeq(LocationsOf(pods), id))[pods[k].id]
            == multiset(LabelIds(LabelValue(pods[k].obj.gpuIDs)))[id]
  {
    var init, last := pods[..|pods| - 1], pods[|pods| - 1];
    var p := pods[k].id;
    PlacesAdded(LocationsOf(init), LabelIds(LabelValue(last.obj.gpuIDs)), last.id, p, id);
    if k < |init| {
      PlacementsOfPod(init, k, id);
    } else {
      UnlistedPodHasNoPlace(init, p, id);
    }
  }

  // ---------------------------------------------------------------- extractUsedGPU

  predicate HasPrefix(s: string, prefix: string) {
    |s| >= |prefix| && s[..|prefix|] == prefix
  }

  function MigPart(requests: map<string, int>): map<string, int> {
    map s | s in requests && HasPrefix(s, MIG_RESOURCES) :: requests[s]
  }

  function UsedByContainers(containers: seq<map<string, int>>): map<string, int> {
    if containers == [] then map[]
    else Plus(UsedByContainers(containers[..|containers| - 1]), MigPart(containers[|containers| - 1]))
  }

  function UsedByPod(obj: PodObject): map<string, int> {
    if Live(obj) then UsedByContainers(obj.containers) else map[]
  }

  function UsedByPods(pods: seq<ListedPod>): map<string, int> {
    if pods == [] then map[]
    else Plus(UsedByPods(pods[..|pods| - 1]), UsedByPod(pods[|pods| - 1].obj))
  }

  predicate RequestsMig(obj: PodObject) {
    exists k :: 0 <= k < |obj.containers| && MigPart(obj.containers[k]) != map[]
  }

  function MigPods(pods: seq<ListedPod>): seq<Pod> {
    if pods == [] then [] else
      var init, last := MigPods(pods[..|pods| - 1]), pods[|pods| - 1];
      if Live(last.obj) && RequestsMig(last.obj) then init + [last.id] else init
  }

  method AddContainer(migSliceCnts: map<string, int>, requests: map<string, int>)
    returns (cnts: map<string, int>, found: bool)
    ensures cnts == Plus(migSliceCnts, MigPart(requests))
    ensures found <==> MigPart(requests) != map[]
  {
    cnts, found := migSliceCnts, false;
    var rest := requests.Keys;
    MigNoneDone(migSliceCnts, requests);
    hide *;
    while rest != {}
      invariant rest <= requests.Keys
      invariant cnts == Plus(migSliceCnts, MigDone(requests, rest))
      invariant found <==> MigDone(requests, rest) != map[]
      decreases |rest|
    {
      var sliceName := Pick(rest);
      MigNext(requests, rest, sliceName);
      if HasPrefix(sliceName, MIG_RESOURCES) {
        PlusMore(migSliceCnts, MigDone(requests, rest), sliceName, requests[sliceName]);
        cnts := cnts[sliceName := Get(cnts, sliceName) + requests[sliceName]];
        found := true;
      }
      rest := rest - {sliceName};
    }
    MigAllDone(requests, rest);
  }

  /** The slice requests visited so far. */
  ghost function MigDone(requests: map<string, int>, rest: set<string>): map<string, int> {
    MigPart(requests) - rest
  }

  lemma MigNext(requests: map<string, int>, rest: set<string>, s: string)
    requires s in rest && rest <= requests.Keys
    ensures var done := MigDone(requests, rest);
            s !in done
            && MigDone(requests, rest - {s}) == if HasPrefix(s, MIG_RESOURCES) then done[s := requests[s]] else done
  {
    hide HasPrefix;
  }

  lemma MigNoneDone(cnts: map<string, int>, requests: map<string, int>)
    ensures MigDone(requests, requests.Keys) == map[] && Plus(cnts, map[]) == cnts
  {
  }

  lemma MigAllDone(requests: map<string, int>, rest: set<string>)
    requires rest == {}
    ensures MigDone(requests, rest) == MigPart(requests)
  {
  }

  lemma PlusMore(a: map<string, int>, b: map<string, int>, s: string, v: int)
    requires s !in b
    ensures Plus(a, b[s := v]) == Plus(a, b)[s := Get(Plus(a, b), s) + v]
  {
  }

  lemma PlusAssociates(a: map<string, int>, b: map<string, int>, c: map<string, int>)
    ensures Plus(Plus(a, b), c) == Plus(a, Plus(b, c))
  {
  }

  method AddContainers(migSliceCnts: map<string, int>, containers: seq<map<string, int>>)
    returns (cnts: map<string, int>, found: bool)
    ensures cnts == Plus(migSliceCnts, UsedByContainers(containers))
    ensures found <==> exists k :: 0 <= k < |containers| && MigPart(containers[k]) != map[]
  {
    cnts, found := migSliceCnts, false;
    for k := 0 to |containers|
      invariant cnts == Plus(migSliceCnts, UsedByContainers(containers[..k]))
      invariant found <==> exists h :: 0 <= h < k && MigPart(containers[h]) != map[]
    {
      ghost var used := UsedByContainers(containers[..k]);
      assert containers[..k + 1][..k] == containers[..k];
      PlusAssociates(migSliceCnts, used, MigPart(containers[k]));
      var here;
      cnts, here := AddContainer(cnts, containers[k]);
      found := found || here;
    }
    assert containers[..|containers|] == containers;
  }

  method ExtractUsedGPU(pods: seq<ListedPod>) returns (migSliceCnts: map<string, int>, gpuPods: seq<Pod>)
    ensures migSliceCnts == UsedByPods(pods)
    ensures gpuPods == MigPods(pods)
  {
    migSliceCnts, gpuPods := map[], [];
    for i := 0 to |pods|
      invariant migSliceCnts == UsedByPods(pods[..i])
      invariant gpuPods == MigPods(pods[..i])
    {
      assert pods[..i + 1][..i] == pods[..i];
      if Live(pods[i].obj) {
        var addToGpuPods;
        migSliceCnts, addToGpuPods := AddContainers(migSliceCnts, pods[i].obj.containers);
        if addToGpuPods {
          gpuPods := gpuPods + [pods[i].id];
        }
      }
    }
    assert pods[..|pods|] == pods;
  }

  lemma {:induction false} UsedIsSum(pods: seq<ListedPod>, s: string)
    ensures Get(UsedByPods(pods), s) == SumSeq(pods, (p: ListedPod) => Get(UsedByPod(p.obj), s))
  {
    if pods != [] {
      UsedIsSum(pods[..|pods| - 1], s);
    }
  }

  lemma {:induction false} UsedByContainersNonNegative(containers: seq<map<string, int>>, s: string)
    requires forall k, r :: 0 <= k < |containers| && r in containers[k] ==> containers[k][r] >= 0
    ensures Get(UsedByContainers(containers), s) >= 0
  {
    if containers != [] {
      UsedByContainersNonNegative(containers[..|containers| - 1], s);
    }
  }

  lemma {:induction false} NoMigRequestNoUse(containers: seq<map<string, int>>, s: string)
    requires forall k :: 0 <= k < |containers| ==> MigPart(containers[k]) == map[]
    ensures s !in UsedByContainers(containers)
  {
    if containers != [] {
      NoMigRequestNoUse(containers[..|containers| - 1], s);
    }
  }

  lemma MigPartOf(requests: map<string, int>, s: string)
    ensures Get(MigPart(requests), s) == if "nvidia.com/mig" <= s then Get(requests, s) else 0
  {
    assert HasPrefix(s, MIG_RESOURCES) <==> "nvidia.com/mig" <= s;
  }

  lemma {:induction false} ContainersUseIsSum(containers: seq<map<string, int>>, s: string)
    ensures Get(UsedByContainers(containers), s)
            == SumSeq(containers, (c: map<string, int>) => if "nvidia.com/mig" <= s then Get(c, s) else 0)
  {
    hide MigPart;
    if containers != [] {
      var last := containers[|containers| - 1];
      ContainersUseIsSum(containers[..|containers| - 1], s);
      MigPartOf(last, s);
    }
  }

  /** A pod uses what all its containers request under a name that begins with "nvidia.com/mig", unless it is finished. */
  lemma PodUseIsSum(obj: PodObject, s: string)
    ensures Get(UsedByPod(obj), s)
            == if obj.phase == Succeeded || obj.phase == Failed then 0
               else SumSeq(obj.containers, (c: map<string, int>) => if "nvidia.com/mig" <= s then Get(c, s) else 0)
  {
    ContainersUseIsSum(obj.containers, s);
  }
}
