/** What feeds the scorers: allocatable and requested amounts of the configured resources. */
module ResourceAllocation {
  import opened Common
  import opened Fit
  import opened ResourceScores

  /** Scalar names are those of extended and other countable resources; any other name has no amount on a node. */
  datatype ResourceName = Cpu | Mem | Ephemeral | ScalarResource(name: string) | Unknown(name: string)

  datatype ResourceSpec = ResourceSpec(resource: ResourceName, weight: int)

  datatype NodeUsage = NodeUsage(allocatable: Resource, requested: Resource, nonZeroRequested: Resource)

  datatype Amounts = Amounts(allocatable: int, requested: int)

  function AllocatableRequest(useRequested: bool, node: NodeUsage, resource: ResourceName, podRequest: int): Amounts {
    var requested := if useRequested then node.requested else node.nonZeroRequested;
    match resource
    case Cpu => Amounts(node.allocatable.milliCPU, requested.milliCPU + podRequest)
    case Mem => Amounts(node.allocatable.memory, requested.memory + podRequest)
    case Ephemeral => Amounts(node.allocatable.ephemeralStorage, node.requested.ephemeralStorage + podRequest)
    case ScalarResource(name) =>
      if podRequest == 0 || name !in node.allocatable.scalar then Amounts(0, 0)
      else Amounts(node.allocatable.scalar[name], Get(node.requested.scalar, name) + podRequest)
    case Unknown(_) => Amounts(0, 0)
  }

  function Filled(a: Amounts): Amounts {
    if a.allocatable == 0 then Amounts(0, 0) else a
  }

  function AmountsOf(useRequested: bool, node: NodeUsage, specs: seq<ResourceSpec>, podRequests: seq<int>): seq<Amounts>
    requires |specs| == |podRequests|
  {
    seq(|specs|, i requires 0 <= i < |specs| =>
      Filled(AllocatableRequest(useRequested, node, specs[i].resource, podRequests[i])))
  }

  function Requesteds(amounts: seq<Amounts>): seq<int> {
    seq(|amounts|, i requires 0 <= i < |amounts| => amounts[i].requested)
  }

  function Allocatables(amounts: seq<Amounts>): seq<int> {
    seq(|amounts|, i requires 0 <= i < |amounts| => amounts[i].allocatable)
  }

  function Weights(specs: seq<ResourceSpec>): seq<int> {
    seq(|specs|, i requires 0 <= i < |specs| => specs[i].weight)
  }

  function ScoreOf(strategy: Strategy, amounts: seq<Amounts>, specs: seq<ResourceSpec>): int
    requires |amounts| == |specs|
  {
    ResourceScores.Score(strategy, Requesteds(amounts), Allocatables(amounts), Weights(specs))
  }

  /** None stands for the error status when no resources are configured. */
  function NodeResult(strategy: Strategy, useRequested: bool, specs: seq<ResourceSpec>, node: NodeUsage, podRequests: seq<int>): Option<int>
    requires |specs| == |podRequests|
  {
    if specs == [] then None else Some(ScoreOf(strategy, AmountsOf(useRequested, node, specs, podRequests), specs))
  }

  method NodeScore(strategy: Strategy, useRequested: bool, specs: seq<ResourceSpec>, node: NodeUsage, podRequests: seq<int>)
    returns (score: Option<int>)
    requires |specs| == |podRequests|
    ensures score == NodeResult(strategy, useRequested, specs, node, podRequests)
  {
    if |specs| == 0 {
      return None;
    }
    var requested := new int[|specs|](_ => 0);
    var allocatable := new int[|specs|](_ => 0);
    ghost var amounts := AmountsOf(useRequested, node, specs, podRequests);
    for i := 0 to |specs|
      invariant forall k :: 0 <= k < i ==> requested[k] == amounts[k].requested && allocatable[k] == amounts[k].allocatable
      invariant forall k :: i <= k < |specs| ==> requested[k] == 0 && allocatable[k] == 0
    {
      var a := AllocatableRequest(useRequested, node, specs[i].resource, podRequests[i]);
      if a.allocatable != 0 {
        allocatable[i] := a.allocatable;
        requested[i] := a.requested;
      }
    }
    assert requested[..] == Requesteds(amounts) && allocatable[..] == Allocatables(amounts);
    var result;
    if strategy.LeastAllocated? {
      result := LeastResourceScorer(requested[..], allocatable[..], Weights(specs));
    } else {
      result := MostResourceScorer(requested[..], allocatable[..], Weights(specs));
    }
    score := Some(result);
  }

  /** A resource the node does not have takes no part in the score. */
  lemma {:induction false} AbsentResourceIsSkipped(strategy: Strategy, requested: seq<int>, allocable: seq<int>,
                                                   weights: seq<int>, k: nat)
    requires |requested| == |allocable| == |weights| && k < |requested| && allocable[k] == 0
    ensures Sum(strategy, requested, allocable, weights)
            == Sum(strategy, Without(requested, k), Without(allocable, k), Without(weights, k))
  {
    hide RequestedScore;
    var n := |requested| - 1;
    if k == n {
      assert Without(requested, k) == requested[..n] && Without(allocable, k) == allocable[..n] && Without(weights, k) == weights[..n];
    } else {
      AbsentResourceIsSkipped(strategy, requested[..n], allocable[..n], weights[..n], k);
      WithoutPrefix(requested, k);
      WithoutPrefix(allocable, k);
      WithoutPrefix(weights, k);
    }
  }

  lemma WithoutPrefix<T>(xs: seq<T>, k: nat)
    requires k < |xs| - 1
    ensures Without(xs, k)[..|xs| - 2] == Without(xs[..|xs| - 1], k)
    ensures Without(xs, k)[|xs| - 2] == xs[|xs| - 1]
  {
  }

  /**
   * A scalar resource that the pod does not request has no influence on where the pod goes: with or without it every
   * node scores the same. If it is the only one configured, every node scores 0, and leaving it out is an error.
   */
  lemma UnrequestedScalarDoesNotMatter(strategy: Strategy, useRequested: bool, specs: seq<ResourceSpec>, node: NodeUsage,
                                       podRequests: seq<int>, k: nat)
    requires |specs| == |podRequests| && k < |specs|
    requires specs[k].resource.ScalarResource? && podRequests[k] == 0
    ensures var all := NodeResult(strategy, useRequested, specs, node, podRequests);
            var fewer := NodeResult(strategy, useRequested, Without(specs, k), node, Without(podRequests, k));
            if |specs| >= 2 then all == fewer else all == Some(0) && fewer == None
  {
    var amounts := AmountsOf(useRequested, node, specs, podRequests);
    var fewer := AmountsOf(useRequested, node, Without(specs, k), Without(podRequests, k));
    assert Requesteds(fewer) == Without(Requesteds(amounts), k);
    assert Allocatables(fewer) == Without(Allocatables(amounts), k);
    assert Weights(Without(specs, k)) == Without(Weights(specs), k);
    AbsentResourceIsSkipped(strategy, Requesteds(amounts), Allocatables(amounts), Weights(specs), k);
  }

  // ---------------------------------------------------------------- what is in use counts like what is requested

  function More(use: Resource, resource: ResourceName, d: int): Resource {
    match resource
    case Cpu => use.(milliCPU := use.milliCPU + d)
    case Mem => use.(memory := use.memory + d)
    case Ephemeral => use.(ephemeralStorage := use.ephemeralStorage + d)
    case ScalarResource(name) => use.(scalar := use.scalar[name := Get(use.scalar, name) + d])
    case Unknown(_) => use
  }

  /** The node with d more of one resource in use. */
  function Busier(node: NodeUsage, resource: ResourceName, d: int): NodeUsage {
    node.(requested := More(node.requested, resource, d), nonZeroRequested := More(node.nonZeroRequested, resource, d))
  }

  /** More use of one resource changes nothing for any other. */
  lemma OtherResourcesAreUntouched(useRequested: bool, node: NodeUsage, resource: ResourceName, other: ResourceName,
                                   podRequest: int, d: int)
    requires other != resource
    ensures AllocatableRequest(useRequested, Busier(node, resource, d), other, podRequest)
            == AllocatableRequest(useRequested, node, other, podRequest)
  {
  }

  /** For the resource itself, d more in use is d more requested, as is d more asked for by the pod; the capacity stays.
   *  Amounts that are not looked at (an unknown resource, or a scalar that is absent or not asked for) stay 0. */
  lemma UseCountsLikeRequest(useRequested: bool, node: NodeUsage, resource: ResourceName, podRequest: int, d: int)
    requires podRequest != 0 && podRequest + d != 0
    ensures var before := AllocatableRequest(useRequested, node, resource, podRequest);
            var busier := AllocatableRequest(useRequested, Busier(node, resource, d), resource, podRequest);
            && busier == AllocatableRequest(useRequested, node, resource, podRequest + d)
            && busier.allocatable == before.allocatable
            && (busier.requested == before.requested + d || busier == before == Amounts(0, 0))
            && (resource.Cpu? ==> before.allocatable == node.allocatable.milliCPU)
            && (resource.Mem? ==> before.allocatable == node.allocatable.memory)
            && (resource.Ephemeral? ==> before.allocatable == node.allocatable.ephemeralStorage)
            && (resource.ScalarResource? ==> before.allocatable == Get(node.allocatable.scalar, resource.name))
            && (before == busier && d != 0 ==>
                  resource.Unknown? || (resource.ScalarResource? && resource.name !in node.allocatable.scalar))
  {
  }

  /** More under the second count, which includes defaults, matters for CPU and memory, and only if that count is used. */
  lemma SecondCountMatters(useRequested: bool, node: NodeUsage, resource: ResourceName, podRequest: int, d: int)
    ensures var before := AllocatableRequest(useRequested, node, resource, podRequest);
            var after := AllocatableRequest(useRequested, node.(nonZeroRequested := More(node.nonZeroRequested, resource, d)),
                                            resource, podRequest);
            && after.allocatable == before.allocatable
            && after.requested == before.requested + if !useRequested && (resource.Cpu? || resource.Mem?) then d else 0
  {
  }
}
