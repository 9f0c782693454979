/** The queueing hints: which cluster events can make a pod schedulable that did not fit before. */
module QueueHints {
  import opened Common
  import opened Text
  import opened Fit

  datatype PodInfo = PodInfo(uid: string, nodeName: string, req: Resource)

  datatype Hint = Queue | Skip

  /** The update frees some resource that the target pod asks for. */
  predicate IsResourceScaleDown(target: PodInfo, original: PodInfo, modified: PodInfo) {
    if modified.uid != target.uid && modified.nodeName == "" then false
    else
      || (target.req.milliCPU != 0 && original.req.milliCPU > modified.req.milliCPU)
      || (target.req.memory != 0 && original.req.memory > modified.req.memory)
      || (target.req.ephemeralStorage != 0 && original.req.ephemeralStorage > modified.req.ephemeralStorage)
      || exists r :: r in target.req.scalar && target.req.scalar[r] != 0
           && Get(original.req.scalar, r) > Get(modified.req.scalar, r)
  }

  /** `modified` is None if the other pod was deleted. */
  function HintAfterPodChange(target: PodInfo, original: PodInfo, modified: Option<PodInfo>): Hint {
    if modified.None? then (if original.nodeName == "" then Skip else Queue)
    else if IsResourceScaleDown(target, original, modified.value) then Queue else Skip
  }

  /** The node's bookkeeping with one more pod, if the pod is on this node. */
  function With(node: NodeInfo, pod: PodInfo): NodeInfo {
    if pod.nodeName != node.name then node else
      node.(pods := node.pods + 1,
            requested := Resource(node.requested.milliCPU + pod.req.milliCPU, node.requested.memory + pod.req.memory,
                                  node.requested.ephemeralStorage + pod.req.ephemeralStorage,
                                  Plus(node.requested.scalar, pod.req.scalar)))
  }

  function WithChanged(node: NodeInfo, pod: Option<PodInfo>): NodeInfo {
    if pod.Some? then With(node, pod.value) else node
  }

  predicate NonNegative(r: Resource) {
    r.milliCPU >= 0 && r.memory >= 0 && r.ephemeralStorage >= 0 && forall s :: s in r.scalar ==> r.scalar[s] >= 0
  }

  /** `fuller` is the same node with at least as much requested of everything the pod asks for. */
  predicate Fuller(req: Resource, node: NodeInfo, fuller: NodeInfo) {
    && fuller.name == node.name && fuller.labels == node.labels
    && fuller.allocatable == node.allocatable && fuller.allowedPodNumber == node.allowedPodNumber
    && node.pods <= fuller.pods
    && (req.milliCPU != 0 ==> node.requested.milliCPU <= fuller.requested.milliCPU)
    && (req.memory != 0 ==> node.requested.memory <= fuller.requested.memory)
    && (req.ephemeralStorage != 0 ==> node.requested.ephemeralStorage <= fuller.requested.ephemeralStorage)
    && (forall r :: r in req.scalar && req.scalar[r] != 0 ==>
          Get(node.requested.scalar, r) <= Get(fuller.requested.scalar, r))
  }

  /** A pod that fits a node fits it as well when less is requested there. */
  lemma FitIsMonotone(req: Resource, node: NodeInfo, fuller: NodeInfo, ig: Ignored)
    requires Fuller(req, node, fuller) && Fits(req, fuller, ig)
    ensures Fits(req, node, ig)
  {
    hide Need, MigNames, Covers, IsIgnored, IsMig, TotalGPU;
    forall r | r in req.scalar ensures !LacksScalar(req, node, ig, r) {
      assert !LacksScalar(req, fuller, ig, r);
    }
    if MigNames(req, ig) != {} {
      SameGpus(node, fuller, Need(MigNames(req, ig)));
    }
  }

  lemma SameGpus(node: NodeInfo, other: NodeInfo, need: Size)
    requires node.labels == other.labels && SomeGpuCovers(other, need)
    ensures SomeGpuCovers(node, need)
  {
    var gpu: nat :| gpu < TotalGPU(other) && Covers(other, need, gpu);
    assert Covers(node, need, gpu);
  }

  /**
   * No wake-up is lost on pod events: if a change to another pod is skipped, the target still fits no node that it did
   * not fit before. A pod's node never changes once it is set.
   */
  lemma SkippedPodChangeWakesNobody(target: PodInfo, original: PodInfo, modified: Option<PodInfo>, node: NodeInfo, ig: Ignored)
    requires HintAfterPodChange(target, original, modified) == Skip
    requires modified.Some? ==> modified.value.uid != target.uid
    requires modified.Some? && original.nodeName != "" ==> modified.value.nodeName == original.nodeName
    requires modified.Some? ==> NonNegative(modified.value.req)
    requires node.name != ""
    requires !Fits(target.req, With(node, original), ig)
    ensures !Fits(target.req, WithChanged(node, modified), ig)
  {
    hide Fits;
    var before, after := With(node, original), WithChanged(node, modified);
    if Fits(target.req, after, ig) {
      assert Fuller(target.req, before, after);
      FitIsMonotone(target.req, before, after, ig);
    }
  }

  // ---------------------------------------------------------------- node events

  // ---------------------------------------------------------------- pods that are woken up can profit

  function NoneIgnored(extended: string -> bool): Ignored {
    Ignored(extended, {}, {})
  }

  /** Before the change the target does not fit the node, and after it does. */
  ghost predicate Helps(target: PodInfo, original: PodInfo, modified: Option<PodInfo>, node: NodeInfo, ig: Ignored) {
    node.name != "" && !Fits(target.req, With(node, original), ig) && Fits(target.req, WithChanged(node, modified), ig)
  }

  /** A node that is exactly large enough for the target next to these requests. */
  function Tailored(name: string, target: Resource, used: Resource, pods: int): NodeInfo {
    NodeInfo(name, map[], 0, pods,
             Resource(target.milliCPU + used.milliCPU, target.memory + used.memory,
                      target.ephemeralStorage + used.ephemeralStorage, Plus(target.scalar, used.scalar)),
             Resource(0, 0, 0, map[]))
  }

  lemma TailoredIsShort(target: Resource, original: PodInfo, used: Resource, ig: Ignored, r: string)
    requires NonNegative(target) && ig.resources == {} && ig.groups == {} && MigNames(target, ig) == {}
    requires original.nodeName != ""
    requires (target.milliCPU != 0 && original.req.milliCPU > used.milliCPU)
          || (target.memory != 0 && original.req.memory > used.memory)
          || (target.ephemeralStorage != 0 && original.req.ephemeralStorage > used.ephemeralStorage)
          || (r in target.scalar && target.scalar[r] != 0 && Get(original.req.scalar, r) > Get(used.scalar, r))
    ensures !Fits(target, With(Tailored(original.nodeName, target, used, 2), original), ig)
  {
    hide IsMig;
    var node := With(Tailored(original.nodeName, target, used, 2), original);
    if r in target.scalar && target.scalar[r] != 0 && Get(original.req.scalar, r) > Get(used.scalar, r) {
      assert !IsMig(r) by {
        assert r !in MigNames(target, ig);
      }
      assert LacksScalar(target, node, ig, r);
    }
  }

  lemma TailoredFits(target: Resource, modified: PodInfo, ig: Ignored)
    requires NonNegative(target) && MigNames(target, ig) == {} && modified.nodeName != ""
    ensures Fits(target, With(Tailored(modified.nodeName, target, modified.req, 2), modified), ig)
  {
    hide IsMig, IsIgnored;
  }

  lemma EmptiedFits(target: Resource, deleted: PodInfo, ig: Ignored)
    requires NonNegative(target) && MigNames(target, ig) == {} && deleted.nodeName != ""
    ensures var node := Tailored(deleted.nodeName, target, Resource(0, 0, 0, map[]), 1);
            Fits(target, node, ig) && !Fits(target, With(node, deleted), ig)
  {
    hide IsMig, IsIgnored;
  }

  /**
   * The hint is exact: for a target without slices, and with nothing ignored, a change to another pod wakes the target
   * exactly if there is a node on which it did not fit before the change and does after it.
   */
  lemma PodHintIsExact(target: PodInfo, original: PodInfo, modified: Option<PodInfo>, extended: string -> bool)
    requires NonNegative(target.req) && MigNames(target.req, NoneIgnored(extended)) == {}
    requires modified.Some? ==> modified.value.uid != target.uid && modified.value.nodeName == original.nodeName
    requires modified.Some? ==> NonNegative(modified.value.req)
    ensures HintAfterPodChange(target, original, modified) == Queue
            <==> exists node :: Helps(target, original, modified, node, NoneIgnored(extended))
  {
    var ig := NoneIgnored(extended);
    if HintAfterPodChange(target, original, modified) == Skip {
      forall node ensures !Helps(target, original, modified, node, ig) {
        if Helps(target, original, modified, node, ig) {
          hide Fits, With, WithChanged;
          SkippedPodChangeWakesNobody(target, original, modified, node, ig);
        }
      }
    } else if modified.None? {
      EmptiedFits(target.req, original, ig);
      assert Helps(target, original, modified, Tailored(original.nodeName, target.req, Resource(0, 0, 0, map[]), 1), ig) by {
        hide Fits, Tailored, With;
      }
    } else {
      var used := modified.value.req;
      var r := ShrunkScalar(target, original, modified.value);
      TailoredIsShort(target.req, original, used, ig, r);
      TailoredFits(target.req, modified.value, ig);
      assert Helps(target, original, modified, Tailored(original.nodeName, target.req, used, 2), ig) by {
        hide Fits, Tailored, With;
      }
    }
  }

  /** A node with exactly these resources, and nothing on it. */
  function Exactly(req: Resource): NodeInfo {
    NodeInfo("n", map[], 0, 1, req, Resource(0, 0, 0, map[]))
  }

  lemma ExactlyFits(req: Resource, ig: Ignored)
    requires MigNames(req, ig) == {}
    ensures Fits(req, Exactly(req), ig)
  {
    hide IsMig, IsIgnored;
  }

  lemma ShrunkIsShort(target: PodInfo, original: PodInfo, modified: PodInfo, ig: Ignored)
    requires IsResourceScaleDown(target, original, modified) && target.req == original.req
    requires NonNegative(original.req) && MigNames(original.req, ig) == {} && ig.resources == {} && ig.groups == {}
    ensures !Fits(original.req, Exactly(modified.req), ig)
  {
    hide IsMig;
    var r := ShrunkScalar(target, original, modified);
    if r in original.req.scalar && original.req.scalar[r] != 0
       && Get(original.req.scalar, r) > Get(modified.req.scalar, r) {
      assert r !in MigNames(original.req, ig);
      assert LacksScalar(original.req, Exactly(modified.req), ig, r);
    }
  }

  /**
   * The same for an update of the target itself, seen as it was before the update: it is woken exactly if some node is
   * large enough for it now and was not before.
   */
  lemma OwnHintIsExact(target: PodInfo, original: PodInfo, modified: PodInfo, extended: string -> bool)
    requires target.uid == modified.uid && target.req == original.req && NonNegative(original.req)
    requires MigNames(original.req, NoneIgnored(extended)) == {} && MigNames(modified.req, NoneIgnored(extended)) == {}
    ensures HintAfterPodChange(target, original, Some(modified)) == Queue
            <==> exists node :: !Fits(original.req, node, NoneIgnored(extended))
                                && Fits(modified.req, node, NoneIgnored(extended))
  {
    var ig := NoneIgnored(extended);
    if IsResourceScaleDown(target, original, modified) {
      ExactlyFits(modified.req, ig);
      ShrunkIsShort(target, original, modified, ig);
    } else {
      forall node | Fits(modified.req, node, ig) ensures Fits(original.req, node, ig) {
        NotShrunkFits(target, original, modified, node, ig);
      }
    }
  }

  lemma NotShrunkFits(target: PodInfo, original: PodInfo, modified: PodInfo, node: NodeInfo, ig: Ignored)
    requires target.uid == modified.uid && target.req == original.req && !IsResourceScaleDown(target, original, modified)
    requires MigNames(original.req, ig) == {} && MigNames(modified.req, ig) == {} && NonNegative(original.req)
    requires ig.resources == {} && ig.groups == {} && Fits(modified.req, node, ig)
    ensures Fits(original.req, node, ig)
  {
    hide IsMig;
    forall r | r in original.req.scalar ensures !LacksScalar(original.req, node, ig, r) {
      if original.req.scalar[r] > 0 {
        assert r in modified.req.scalar && original.req.scalar[r] <= modified.req.scalar[r];
        assert !LacksScalar(modified.req, node, ig, r);
      }
    }
  }

  lemma ShrunkScalar(target: PodInfo, original: PodInfo, modified: PodInfo) returns (r: string)
    requires IsResourceScaleDown(target, original, modified)
    ensures (target.req.milliCPU != 0 && original.req.milliCPU > modified.req.milliCPU)
         || (target.req.memory != 0 && original.req.memory > modified.req.memory)
         || (target.req.ephemeralStorage != 0 && original.req.ephemeralStorage > modified.req.ephemeralStorage)
         || (r in target.req.scalar && target.req.scalar[r] != 0
             && Get(original.req.scalar, r) > Get(modified.req.scalar, r))
  {
    r := "";
    if q :| q in target.req.scalar && target.req.scalar[q] != 0
            && Get(original.req.scalar, q) > Get(modified.req.scalar, q) {
      r := q;
    }
  }

  /** The node without any pods on it, as the hint looks at it. */
  function Emptied(node: NodeInfo): NodeInfo {
    node.(pods := 0, requested := Resource(0, 0, 0, map[]))
  }

  /** The check runs without a cycle state, which a request for MIG slices would dereference. */
  method IsFit(req: Resource, node: Option<NodeInfo>, extended: string -> bool) returns (fit: bool)
    requires WellNamed(req, NoneIgnored(extended))
    requires node.Some? && MigNames(req, NoneIgnored(extended)) != {} ==>
               WellLabelled(node.value) && !Records(req, Emptied(node.value), NoneIgnored(extended))
    ensures fit <==> node.Some? && Fits(req, Emptied(node.value), NoneIgnored(extended))
  {
    hide WellNamed, Fits, Covers, Extractable, MaxLabel;
    if node.None? {
      return false;
    }
    assert WellLabelled(node.value) ==> WellLabelled(Emptied(node.value)) by {
      assert TotalGPU(Emptied(node.value)) == TotalGPU(node.value);
    }
    var list := FitsRequest(req, Emptied(node.value), NoneIgnored(extended), null);
    fit := |list| == 0;
  }

  ghost function HintAfterNodeChange(req: Resource, node: NodeInfo, extended: string -> bool): Hint {
    if Fits(req, Emptied(node), NoneIgnored(extended)) then Queue else Skip
  }

  /** Any pods may be on the node. */
  datatype Load = Load(pods: nat, requested: Resource)

  function Loaded(node: NodeInfo, load: Load): NodeInfo {
    node.(pods := load.pods, requested := load.requested)
  }

  /** With nothing configured to be ignored, a skipped node is too small for the pod whatever runs on it. */
  lemma SkippedNodeNeverFits(req: Resource, node: NodeInfo, extended: string -> bool, load: Load)
    requires HintAfterNodeChange(req, node, extended) == Skip && NonNegative(load.requested)
    ensures !Fits(req, Loaded(node, load), NoneIgnored(extended))
  {
    hide Fits;
    if Fits(req, Loaded(node, load), NoneIgnored(extended)) {
      assert Fuller(req, Emptied(node), Loaded(node, load));
      FitIsMonotone(req, Emptied(node), Loaded(node, load), NoneIgnored(extended));
    }
  }

  /** An ignored resource of which the node does not have enough. */
  predicate ShortOfIgnored(req: Resource, node: NodeInfo, ig: Ignored) {
    exists r :: r in req.scalar && IsIgnored(ig, r) && req.scalar[r] != 0
      && req.scalar[r] > Get(node.allocatable.scalar, r)
  }

  /** A node event is skipped although the filter, which ignores some resources, lets the pod onto the node. */
  ghost predicate MissedWakeUp(req: Resource, node: NodeInfo, ig: Ignored) {
    && HintAfterNodeChange(req, node, ig.extended) == Skip
    && exists load: Load :: NonNegative(load.requested) && Fits(req, Loaded(node, load), ig)
  }

  lemma FitsIgnoringMore(req: Resource, node: NodeInfo, ig: Ignored)
    requires MigNames(req, NoneIgnored(ig.extended)) == {}
    ensures Fits(req, node, NoneIgnored(ig.extended))
            <==> Fits(req, node, ig) && forall r :: r in req.scalar && IsIgnored(ig, r) ==>
                   !LacksScalar(req, node, NoneIgnored(ig.extended), r)
    ensures MigNames(req, ig) == {}
  {
    hide IsMig, Lacks;
    var none := NoneIgnored(ig.extended);
    forall r | r in req.scalar && req.scalar[r] != 0 ensures !IsMig(r) {
      assert r !in MigNames(req, none);
    }
    forall r | r in req.scalar
      ensures LacksScalar(req, node, none, r) <==>
                if IsIgnored(ig, r) then LacksScalar(req, node, none, r) else LacksScalar(req, node, ig, r)
      ensures IsIgnored(ig, r) ==> !LacksScalar(req, node, ig, r)
    {
    }
  }

  /**
   * With ignored resources the hint does lose wake-ups, for a pod without MIG requests exactly when the empty node passes
   * the filter but is short of a requested resource that the filter ignores.
   */
  lemma WakeUpIsMissedIffShortOfIgnored(req: Resource, node: NodeInfo, ig: Ignored)
    requires MigNames(req, NoneIgnored(ig.extended)) == {}
    ensures MissedWakeUp(req, node, ig) <==> Fits(req, Emptied(node), ig) && ShortOfIgnored(req, node, ig)
  {
    hide Fits, MigNames, IsIgnored, IsMig;
    FitsIgnoringMore(req, Emptied(node), ig);
    if load: Load :| NonNegative(load.requested) && Fits(req, Loaded(node, load), ig) {
      assert Fuller(req, Emptied(node), Loaded(node, load));
      FitIsMonotone(req, Emptied(node), Loaded(node, load), ig);
    }
    if Fits(req, Emptied(node), ig) {
      assert Loaded(node, Load(0, Resource(0, 0, 0, map[]))) == Emptied(node);
    }
    IgnoredLack(req, node, ig);
  }

  lemma IgnoredLack(req: Resource, node: NodeInfo, ig: Ignored)
    requires MigNames(req, NoneIgnored(ig.extended)) == {}
    ensures ShortOfIgnored(req, node, ig)
            <==> exists r :: r in req.scalar && IsIgnored(ig, r) && LacksScalar(req, Emptied(node), NoneIgnored(ig.extended), r)
  {
    hide IsMig;
    var none := NoneIgnored(ig.extended);
    forall r | r in req.scalar
      ensures LacksScalar(req, Emptied(node), none, r) <==>
                req.scalar[r] != 0 && req.scalar[r] > Get(node.allocatable.scalar, r)
    {
      if req.scalar[r] != 0 {
        assert r !in MigNames(req, none);
      }
    }
  }

  /** A concrete case: the node offers none of an ignored resource, and everything else fits. */
  lemma IgnoredResourceMissesWakeUp()
    ensures var req := Resource(0, 0, 0, map["a/b" := 1]);
            var node := NodeInfo("n", map[], 0, 1, Resource(0, 0, 0, map[]), Resource(0, 0, 0, map[]));
            MissedWakeUp(req, node, Ignored(_ => true, {"a/b"}, {}))
  {
    var req := Resource(0, 0, 0, map["a/b" := 1]);
    var node := NodeInfo("n", map[], 0, 1, Resource(0, 0, 0, map[]), Resource(0, 0, 0, map[]));
    var ig := Ignored(_ => true, {"a/b"}, {});
    assert !IsMig("a/b") by {
      assert "a/b" == "a" + ['/'] + "b";
      SplitOfPrefix("a", "b", '/');
      SplitOfPlain("b", '/');
    }
    assert MigNames(req, NoneIgnored(ig.extended)) == {} && MigNames(req, ig) == {};
    assert IsIgnored(ig, "a/b") && req.scalar["a/b"] == 1;
    WakeUpIsMissedIffShortOfIgnored(req, node, ig);
  }
}
