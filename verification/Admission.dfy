/** The Permit stage, and what admission through Filter and Permit means. */
module Admission {
  import opened Common
  import opened Fit
  import opened FitInNumbers

  const EXPECTED_NODE := "expectedNode"
  const TARGET_POD := "targetPod"
  const TARGET_NAMESPACE := "targetNamespace"

  datatype Status = Success | Unschedulable | Error

  type Labels = map<string, string>

  /** Which of the API calls go through. */
  datatype ApiOutcome = ApiOutcome(get: bool, update: bool, patch: bool)

  /** The objects Permit writes to. */
  class Api {
    var nodes: map<string, Labels>
    var pods: map<Pod, Labels>

    constructor (nodes: map<string, Labels>, pods: map<Pod, Labels>)
      ensures this.nodes == nodes && this.pods == pods
    {
      this.nodes, this.pods := nodes, pods;
    }
  }

  /** JSON Patch "replace" (section 4.3 of RFC 6902) works only on a label that is already there. */
  predicate CanReplace(pods: map<Pod, Labels>, p: Pod) {
    p in pods && EXPECTED_NODE in pods[p]
  }

  /** The labels as Permit found them in the scheduler's copy of the pod. */
  predicate ExpectedHere(labels: Labels, nodeName: string) {
    EXPECTED_NODE in labels ==> labels[EXPECTED_NODE] == nodeName
  }

  /** The verdict of Permit, given what the filter recorded. */
  function PermitStatus(toReconfig: map<string, bool>, pods: map<Pod, Labels>, p: Pod, labels: Labels, nodeName: string,
                        nodeKnown: bool, api: ApiOutcome): Status {
    if nodeName !in toReconfig then Success
    else if !toReconfig[nodeName] then (if ExpectedHere(labels, nodeName) then Success else Unschedulable)
    else if nodeKnown && api.get && api.update && api.patch && CanReplace(pods, p) then Unschedulable
    else Error
  }

  /** The node label that triggers the reconfiguration is written before the pod label, and stays if that one fails. */
  method Permit(state: CycleState, api: Api, p: Pod, labels: Labels, nodeName: string, outcome: ApiOutcome)
    returns (status: Status)
    modifies api
    ensures status == PermitStatus(state.toReconfig, old(api.pods), p, labels, nodeName, nodeName in old(api.nodes), outcome)
    ensures var marked := nodeName in state.toReconfig && state.toReconfig[nodeName]
                          && nodeName in old(api.nodes) && outcome.get && outcome.update;
            && api.nodes == (if marked
                 then old(api.nodes)[nodeName := old(api.nodes)[nodeName][TARGET_POD := p.name][TARGET_NAMESPACE := p.namespace]]
                 else old(api.nodes))
            && api.pods == (if marked && outcome.patch && CanReplace(old(api.pods), p)
                 then old(api.pods)[p := old(api.pods)[p][EXPECTED_NODE := nodeName]]
                 else old(api.pods))
  {
    if nodeName !in state.toReconfig {
      return Success;
    }
    if state.toReconfig[nodeName] {
      if nodeName !in api.nodes || !outcome.get {
        return Error;
      }
      var nodeLabels := api.nodes[nodeName];
      nodeLabels := nodeLabels[TARGET_POD := p.name];
      nodeLabels := nodeLabels[TARGET_NAMESPACE := p.namespace];
      if !outcome.update {
        return Error;
      }
      api.nodes := api.nodes[nodeName := nodeLabels];
      if !outcome.patch || !CanReplace(api.pods, p) {
        return Error;
      }
      api.pods := api.pods[p := api.pods[p][EXPECTED_NODE := nodeName]];
      return Unschedulable;
    }
    if EXPECTED_NODE in labels {
      if labels[EXPECTED_NODE] != nodeName {
        return Unschedulable;
      }
      return Success;
    }
    return Success;
  }

  // ---------------------------------------------------------------- the chain

  /** What filtering one node leaves in the cycle state (see the contract of `FitsRequest`). */
  ghost function Recorded(toReconfig: map<string, bool>, req: Resource, node: NodeInfo, ig: Ignored): map<string, bool> {
    if Records(req, node, ig) then toReconfig[node.name := !SomeGpuReady(node, req, MigNames(req, ig))] else toReconfig
  }

  /** One scheduling cycle filters nodes in some order. */
  ghost function RecordedAll(req: Resource, nodes: seq<NodeInfo>, ig: Ignored): map<string, bool> {
    if nodes == [] then map[]
    else Recorded(RecordedAll(req, nodes[..|nodes| - 1], ig), req, nodes[|nodes| - 1], ig)
  }

  predicate DistinctNames(nodes: seq<NodeInfo>) {
    forall i, j :: 0 <= i < j < |nodes| ==> nodes[i].name != nodes[j].name
  }

  /** The plugin's Filter runs for every node of the cycle and leaves its verdicts in the cycle state. */
  method FilterNodes(req: Resource, nodes: seq<NodeInfo>, ig: Ignored, cycleState: CycleState) returns (fits: seq<bool>)
    requires cycleState.toReconfig == map[] && WellNamed(req, ig)
    requires MigNames(req, ig) != {} ==> forall i :: 0 <= i < |nodes| ==> WellLabelled(nodes[i])
    modifies cycleState
    ensures cycleState.toReconfig == RecordedAll(req, nodes, ig)
    ensures |fits| == |nodes| && forall i :: 0 <= i < |nodes| ==> (fits[i] <==> Fits(req, nodes[i], ig))
  {
    hide Fits, Reported, Records, SomeGpuReady, WellNamed, WellLabelled, MigNames;
    fits := [];
    for k := 0 to |nodes|
      invariant cycleState.toReconfig == RecordedAll(req, nodes[..k], ig)
      invariant |fits| == k && forall i :: 0 <= i < k ==> (fits[i] <==> Fits(req, nodes[i], ig))
    {
      assert nodes[..k + 1][..k] == nodes[..k];
      var list := FitsRequest(req, nodes[k], ig, cycleState);
      fits := fits + [|list| == 0];
    }
    assert nodes[..|nodes|] == nodes;
  }

  lemma {:induction false} RecordOfNode(req: Resource, nodes: seq<NodeInfo>, ig: Ignored, k: nat)
    requires DistinctNames(nodes) && k < |nodes|
    ensures var all := RecordedAll(req, nodes, ig);
            && (nodes[k].name in all <==> Records(req, nodes[k], ig))
            && (nodes[k].name in all ==> all[nodes[k].name] == !SomeGpuReady(nodes[k], req, MigNames(req, ig)))
  {
    hide Records, SomeGpuReady, MigNames;
    var init := nodes[..|nodes| - 1];
    if k < |init| {
      RecordOfNode(req, init, ig, k);
    } else {
      UnfilteredHasNoRecord(req, init, ig, nodes[k].name);
    }
  }

  lemma {:induction false} UnfilteredHasNoRecord(req: Resource, nodes: seq<NodeInfo>, ig: Ignored, name: string)
    requires forall i :: 0 <= i < |nodes| ==> nodes[i].name != name
    ensures name !in RecordedAll(req, nodes, ig)
  {
    hide Records, SomeGpuReady, MigNames;
    if nodes != [] {
      UnfilteredHasNoRecord(req, nodes[..|nodes| - 1], ig, name);
    }
  }

  lemma FitMeansRecord(req: Resource, node: NodeInfo, ig: Ignored)
    requires Fits(req, node, ig) && MigNames(req, ig) != {}
    ensures Records(req, node, ig) && SomeGpuCovers(node, Need(MigNames(req, ig)))
  {
    hide Lacks, LacksScalar, Need, Covers, TotalGPU;
    SomeGpuMeansGpus(node, Need(MigNames(req, ig)));
  }

  /**
   * A pod that requests MIG slices and passed the filter on a node is let through there exactly if some GPU of that node
   * covers the request, has enough free slices of some requested type, and the pod is not expected elsewhere.
   */
  lemma AdmissionChain(req: Resource, nodes: seq<NodeInfo>, ig: Ignored, k: nat, pods: map<Pod, Labels>, p: Pod,
                       labels: Labels, nodeKnown: bool, api: ApiOutcome)
    requires DistinctNames(nodes) && k < |nodes|
    requires Fits(req, nodes[k], ig) && MigNames(req, ig) != {}
    ensures SomeGpuCovers(nodes[k], Need(MigNames(req, ig)))
    ensures PermitStatus(RecordedAll(req, nodes, ig), pods, p, labels, nodes[k].name, nodeKnown, api) == Success
            <==> SomeGpuReady(nodes[k], req, MigNames(req, ig))
                 && ("expectedNode" !in labels || labels["expectedNode"] == nodes[k].name)
  {
    hide Fits, SomeGpuReady, SomeGpuCovers, Records, RecordedAll;
    FitMeansRecord(req, nodes[k], ig);
    RecordOfNode(req, nodes, ig, k);
  }

  /** The same in the numbers of a node whose labels describe these GPUs. */
  lemma AdmissionInNumbers(req: Resource, nodes: seq<NodeInfo>, ig: Ignored, k: nat, pods: map<Pod, Labels>, p: Pod,
                           labels: Labels, nodeKnown: bool, api: ApiOutcome, gpus: seq<Gpu>, slices: map<string, Size>)
    requires DistinctNames(nodes) && k < |nodes| && Fits(req, nodes[k], ig)
    requires Describes(nodes[k].labels, gpus) && AsksFor(req, ig, slices) && slices != map[]
    ensures HasRoom(req, nodes[k], ig) && exists g :: 0 <= g < |gpus| && GpuCovers(gpus[g], slices)
    ensures PermitStatus(RecordedAll(req, nodes, ig), pods, p, labels, nodes[k].name, nodeKnown, api) == Success
            <==> (exists g :: 0 <= g < |gpus| && GpuIsReady(gpus[g], req, slices))
                 && ("expectedNode" !in labels || labels["expectedNode"] == nodes[k].name)
  {
    FitOnDescribedNode(req, nodes[k], ig, gpus, slices);
    ReadyOnDescribedNode(req, nodes[k], ig, gpus, slices);
    AskedNames(req, ig, slices);
    assert MigNames(req, ig) != {};
    hide Fits, HasRoom, Describes, AsksFor, GpuCovers, GpuIsReady, SomeGpuReady, MigNames, RecordedAll, DistinctNames;
    AdmissionChain(req, nodes, ig, k, pods, p, labels, nodeKnown, api);
  }

  /**
   * Where a GPU has to be repartitioned first, Permit reports "wait" only for a pod that already carries the expectedNode
   * label; for any other pod it reports an error although every call it could make went through.
   */
  lemma FirstReconfigurationReportsError(toReconfig: map<string, bool>, pods: map<Pod, Labels>, p: Pod, labels: Labels,
                                         nodeName: string)
    requires nodeName in toReconfig && toReconfig[nodeName]
    ensures PermitStatus(toReconfig, pods, p, labels, nodeName, true, ApiOutcome(true, true, true))
            == if p in pods && "expectedNode" in pods[p] then Unschedulable else Error
  {
  }
}
