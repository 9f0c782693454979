/** What it means to pass the filter, in terms of the numbers of the node, the pod and the GPUs. */
module FitInNumbers {
  import opened Common
  import opened Text
  import opened Fit
  import opened QueueHints

  // ---------------------------------------------------------------- room on the node

  /** The part of a resource name after the slash begins with "mig". */
  predicate NamesSlices(name: string) {
    var parts := Split(name, '/');
    |parts| > 1 && "mig" <= parts[1]
  }

  /** The configuration says nothing about the resource, neither by its name nor by the part before the slash. */
  predicate NotIgnored(ig: Ignored, name: string) {
    ig.extended(name) ==> name !in ig.resources && Split(name, '/')[0] !in ig.groups
  }

  /** There is room for one more pod of this size, as far as the node's own numbers go. */
  predicate HasRoom(req: Resource, node: NodeInfo, ig: Ignored) {
    && node.pods < node.allowedPodNumber
    && (req.milliCPU > 0 ==> node.requested.milliCPU + req.milliCPU <= node.allocatable.milliCPU)
    && (req.memory > 0 ==> node.requested.memory + req.memory <= node.allocatable.memory)
    && (req.ephemeralStorage > 0 ==>
          node.requested.ephemeralStorage + req.ephemeralStorage <= node.allocatable.ephemeralStorage)
    && (forall r :: r in req.scalar && req.scalar[r] != 0 && NotIgnored(ig, r) && !NamesSlices(r) ==>
          Get(node.requested.scalar, r) + req.scalar[r] <= Get(node.allocatable.scalar, r))
  }

  lemma SliceNames(name: string)
    ensures IsMig(name) <==> NamesSlices(name)
  {
    var parts := Split(name, '/');
    if |parts| > 1 {
      assert "mig" <= parts[1] <==> |parts[1]| >= 3 && parts[1][..3] == "mig";
    }
  }

  lemma IgnoredNames(ig: Ignored, name: string)
    ensures IsIgnored(ig, name) <==> !NotIgnored(ig, name)
  {
  }

  /** A pod passes the filter exactly if there is room for it and its slices fit. */
  lemma FitMeansRoom(req: Resource, node: NodeInfo, ig: Ignored)
    ensures Fits(req, node, ig) <==> HasRoom(req, node, ig) && MigFits(req, node, ig)
  {
    forall r | r in req.scalar
      ensures LacksScalar(req, node, ig, r) <==>
                req.scalar[r] != 0 && NotIgnored(ig, r) && !NamesSlices(r)
                && Get(node.requested.scalar, r) + req.scalar[r] > Get(node.allocatable.scalar, r)
    {
      SliceNames(r);
      IgnoredNames(ig, r);
      hide IsMig, IsIgnored, NotIgnored, NamesSlices, Get;
    }
    hide MigFits, LacksScalar, NotIgnored, NamesSlices, Get;
  }

  /** The node's books with one more pod are within its capacity in everything the pod asks for. */
  predicate WithinCapacity(req: Resource, placed: NodeInfo, ig: Ignored) {
    && placed.pods <= placed.allowedPodNumber
    && (req.milliCPU > 0 ==> placed.requested.milliCPU <= placed.allocatable.milliCPU)
    && (req.memory > 0 ==> placed.requested.memory <= placed.allocatable.memory)
    && (req.ephemeralStorage > 0 ==> placed.requested.ephemeralStorage <= placed.allocatable.ephemeralStorage)
    && (forall r :: r in req.scalar && req.scalar[r] != 0 && NotIgnored(ig, r) && !NamesSlices(r) ==>
          Get(placed.requested.scalar, r) <= Get(placed.allocatable.scalar, r))
  }

  /** Everything on the books of the node grows by what the pod requests. */
  ghost predicate GrowsBy(node: NodeInfo, placed: NodeInfo, req: Resource) {
    && placed.allocatable == node.allocatable && placed.allowedPodNumber == node.allowedPodNumber
    && placed.pods == node.pods + 1
    && placed.requested.milliCPU == node.requested.milliCPU + req.milliCPU
    && placed.requested.memory == node.requested.memory + req.memory
    && placed.requested.ephemeralStorage == node.requested.ephemeralStorage + req.ephemeralStorage
    && forall r :: Get(placed.requested.scalar, r) == Get(node.requested.scalar, r) + Get(req.scalar, r)
  }

  /** A pod passes the filter exactly if placing it overbooks nothing that it asks for, and its slices fit. */
  lemma FitMeansNothingIsOverbooked(pod: PodInfo, node: NodeInfo, ig: Ignored)
    requires pod.nodeName == node.name
    ensures GrowsBy(node, With(node, pod), pod.req)
    ensures Fits(pod.req, node, ig) <==> WithinCapacity(pod.req, With(node, pod), ig) && MigFits(pod.req, node, ig)
  {
    FitMeansRoom(pod.req, node, ig);
    hide Fits, MigFits, NotIgnored, NamesSlices;
  }

  // ---------------------------------------------------------------- room on a GPU

  /** A GPU as its labels describe it: its largest possible slice, and the free slices by type. */
  datatype Gpu = Gpu(max: Size, free: map<string, nat>)

  predicate IsSliceSize(size: Size) {
    0 <= size.cpu < 10 && 0 <= size.memory <= MAX_INT64
  }

  function NameOf(size: Size): string
    requires IsSliceSize(size)
  {
    SliceName(size.cpu, size.memory)
  }

  /** The node's labels are those of these GPUs. */
  ghost predicate Describes(labels: map<string, string>, gpus: seq<Gpu>) {
    && "gpu-count" in labels && labels["gpu-count"] == Itoa(|gpus|) && |gpus| <= MAX_INT64
    && forall g :: 0 <= g < |gpus| ==> DescribesGpu(labels, "kubecomp/status-gpu-" + Itoa(g), gpus[g])
  }

  ghost predicate DescribesGpu(labels: map<string, string>, device: string, gpu: Gpu) {
    && IsSliceSize(gpu.max)
    && device + "-max-mig" in labels && labels[device + "-max-mig"] == NameOf(gpu.max)
    && forall s ::
         if s in gpu.free
         then gpu.free[s] <= MAX_INT64
              && device + "-" + s + "-free" in labels && labels[device + "-" + s + "-free"] == Itoa(gpu.free[s])
         else device + "-" + s + "-free" !in labels
  }

  lemma ParseOfItoa(n: int)
    requires MIN_INT64 <= n <= MAX_INT64
    ensures ParseInt(Itoa(n)) == Parsed(n, true)
  {
    AtoiOfItoa(n);
  }

  lemma DescribedCount(node: NodeInfo, gpus: seq<Gpu>)
    requires Describes(node.labels, gpus)
    ensures TotalGPU(node) == |gpus| && GPU_COUNT_LABEL in node.labels
  {
    ParseOfItoa(|gpus|);
  }

  lemma CoversByName(node: NodeInfo, need: Size, g: nat, max: Size)
    requires IsSliceSize(max) && MaxLabel(g) in node.labels && node.labels[MaxLabel(g)] == NameOf(max)
    ensures Covers(node, need, g) <==> max.cpu >= need.cpu && max.memory >= need.memory
  {
    SliceNameRoundTrip(max.cpu, max.memory);
    hide MaxLabel, SliceName, ExtractCPUAndMemory;
  }

  lemma DescribedMax(node: NodeInfo, gpus: seq<Gpu>, g: nat, need: Size)
    requires Describes(node.labels, gpus) && g < |gpus|
    ensures Covers(node, need, g) <==> gpus[g].max.cpu >= need.cpu && gpus[g].max.memory >= need.memory
  {
    assert DescribesGpu(node.labels, "kubecomp/status-gpu-" + Itoa(g), gpus[g]);
    assert MaxLabel(g) == "kubecomp/status-gpu-" + Itoa(g) + "-max-mig";
    hide Covers, NameOf, MaxLabel, Itoa, Describes;
    CoversByName(node, need, g, gpus[g].max);
  }

  lemma DescribedFree(node: NodeInfo, gpus: seq<Gpu>, g: nat, slice: string)
    requires Describes(node.labels, gpus) && g < |gpus|
    ensures Free(node, g, slice) == Get(gpus[g].free, slice)
  {
    var device := "kubecomp/status-gpu-" + Itoa(g);
    assert DescribesGpu(node.labels, device, gpus[g]);
    assert FreeLabel(g, slice) == device + "-" + slice + "-free";
    if slice in gpus[g].free {
      ParseOfItoa(gpus[g].free[slice]);
    } else {
      assert !ParseInt("").ok;
    }
  }

  /** The resource name of a slice of this size. */
  predicate IsNameFor(name: string, prefix: string, size: Size) {
    IsSliceSize(size) && '/' !in prefix && name == prefix + "/mig-" + NameOf(size)
  }

  /** The slices that count for the request, by resource name. */
  ghost predicate AsksFor(req: Resource, ig: Ignored, slices: map<string, Size>) {
    && (forall r :: r in slices <==> r in req.scalar && req.scalar[r] != 0 && NotIgnored(ig, r) && NamesSlices(r))
    && forall r :: r in slices ==> exists prefix :: IsNameFor(r, prefix, slices[r])
  }

  lemma SliceOfName(name: string, prefix: string, size: Size)
    requires IsNameFor(name, prefix, size)
    ensures SliceType(name) == NameOf(size)
    ensures CpuOf(name) == size.cpu && MemoryOf(name) == size.memory
  {
    var suffix := "mig-" + NameOf(size);
    assert name == prefix + ['/'] + suffix;
    assert '/' !in suffix;
    SplitOfPrefix(prefix, suffix, '/');
    SplitOfPlain(suffix, '/');
    assert Suffix(name) == suffix && suffix[4..] == NameOf(size);
    SliceNameRoundTrip(size.cpu, size.memory);
  }

  lemma NamesDiffer(a: Size, b: Size)
    requires IsSliceSize(a) && IsSliceSize(b) && NameOf(a) == NameOf(b)
    ensures a == b
  {
    SliceNameRoundTrip(a.cpu, a.memory);
    SliceNameRoundTrip(b.cpu, b.memory);
    hide SliceName, ExtractCPUAndMemory;
  }

  lemma AskedNames(req: Resource, ig: Ignored, slices: map<string, Size>)
    requires AsksFor(req, ig, slices)
    ensures MigNames(req, ig) == slices.Keys
    ensures forall r :: r in slices ==> IsSliceSize(slices[r]) && SliceType(r) == NameOf(slices[r])
                                        && CpuOf(r) == slices[r].cpu && MemoryOf(r) == slices[r].memory
  {
    forall r ensures r in MigNames(req, ig) <==> r in slices {
      SliceNames(r);
      IgnoredNames(ig, r);
      hide IsMig, IsIgnored, NotIgnored, NamesSlices;
    }
    hide MigNames, SliceType, CpuOf, MemoryOf, NameOf, NotIgnored, NamesSlices;
    forall r | r in slices ensures IsSliceSize(slices[r]) && SliceType(r) == NameOf(slices[r])
                                   && CpuOf(r) == slices[r].cpu && MemoryOf(r) == slices[r].memory {
      var prefix :| IsNameFor(r, prefix, slices[r]);
      SliceOfName(r, prefix, slices[r]);
    }
  }

  /** One slice of every requested type, whatever its quantity. */
  ghost function SizeOfAll(slices: map<string, Size>): Size {
    Size(SumOver(slices.Keys, (r: string) => if r in slices then slices[r].cpu else 0),
         SumOver(slices.Keys, (r: string) => if r in slices then slices[r].memory else 0))
  }

  /** How many slices of one size are requested, under all names for that size. */
  ghost function Quantity(req: Resource, slices: map<string, Size>, size: Size): int {
    SumOver((set r | r in slices && slices[r] == size), (r: string) => Get(req.scalar, r))
  }

  lemma NeedIsSizeOfAll(req: Resource, ig: Ignored, slices: map<string, Size>)
    requires AsksFor(req, ig, slices)
    ensures Need(MigNames(req, ig)) == SizeOfAll(slices)
  {
    AskedNames(req, ig, slices);
    hide CpuOf, MemoryOf, MigNames, SliceType, NameOf, AsksFor;
    SumEq(slices.Keys, CpuOf, (r: string) => if r in slices then slices[r].cpu else 0);
    SumEq(slices.Keys, MemoryOf, (r: string) => if r in slices then slices[r].memory else 0);
  }

  lemma WantedIsQuantity(req: Resource, ig: Ignored, slices: map<string, Size>, size: Size)
    requires AsksFor(req, ig, slices) && IsSliceSize(size)
    ensures Wanted(req, MigNames(req, ig), NameOf(size)) == Quantity(req, slices, size)
  {
    AskedNames(req, ig, slices);
    hide MigNames, SliceType, NameOf, AsksFor, Get;
    var names := MigNames(req, ig);
    forall r ensures r in names && SliceType(r) == NameOf(size) <==> r in slices && slices[r] == size {
      if r in slices && SliceType(r) == NameOf(size) {
        NamesDiffer(slices[r], size);
      }
    }
    assert (set r | r in names && SliceType(r) == NameOf(size)) == (set r | r in slices && slices[r] == size);
  }

  /** Some GPU's largest slice covers one slice of every requested type together. */
  ghost predicate GpuCovers(gpu: Gpu, slices: map<string, Size>) {
    gpu.max.cpu >= SizeOfAll(slices).cpu && gpu.max.memory >= SizeOfAll(slices).memory
  }

  /** On a node with the labels of these GPUs, a pod that asks for these slices passes the filter exactly if there is
   *  room for it in the node's numbers and, if it asks for any slice, one of the GPUs is large enough. */
  lemma FitOnDescribedNode(req: Resource, node: NodeInfo, ig: Ignored, gpus: seq<Gpu>, slices: map<string, Size>)
    requires Describes(node.labels, gpus) && AsksFor(req, ig, slices)
    ensures Fits(req, node, ig)
            <==> HasRoom(req, node, ig) && (slices == map[] || exists g :: 0 <= g < |gpus| && GpuCovers(gpus[g], slices))
  {
    FitMeansRoom(req, node, ig);
    AskedNames(req, ig, slices);
    NeedIsSizeOfAll(req, ig, slices);
    DescribedCount(node, gpus);
    var need := Need(MigNames(req, ig));
    forall g: nat | g < |gpus| ensures Covers(node, need, g) <==> GpuCovers(gpus[g], slices) {
      DescribedMax(node, gpus, g, need);
    }
    hide Fits, HasRoom, Describes, AsksFor, Covers, Need, MigNames, TotalGPU, GpuCovers, SliceType, CpuOf, MemoryOf, NameOf;
    assert MigNames(req, ig) == {} <==> slices == map[];
  }

  /** The GPU also has as many free slices of some requested size as are requested. */
  ghost predicate GpuIsReady(gpu: Gpu, req: Resource, slices: map<string, Size>) {
    GpuCovers(gpu, slices)
    && exists r :: r in slices && IsSliceSize(slices[r])
                   && Get(gpu.free, NameOf(slices[r])) >= Quantity(req, slices, slices[r])
  }

  /** And no reconfiguration is recorded exactly if one of the GPUs is large enough and has such free slices. */
  lemma ReadyOnDescribedNode(req: Resource, node: NodeInfo, ig: Ignored, gpus: seq<Gpu>, slices: map<string, Size>)
    requires Describes(node.labels, gpus) && AsksFor(req, ig, slices)
    ensures SomeGpuReady(node, req, MigNames(req, ig))
            <==> exists g :: 0 <= g < |gpus| && GpuIsReady(gpus[g], req, slices)
  {
    DescribedCount(node, gpus);
    forall g: nat | g < |gpus| ensures Ready(node, req, MigNames(req, ig), g) <==> GpuIsReady(gpus[g], req, slices) {
      ReadyOnDescribedGpu(req, node, ig, gpus, slices, g);
    }
    hide Describes, AsksFor, Ready, MigNames, TotalGPU, GpuIsReady;
  }

  lemma ReadyOnDescribedGpu(req: Resource, node: NodeInfo, ig: Ignored, gpus: seq<Gpu>, slices: map<string, Size>, g: nat)
    requires Describes(node.labels, gpus) && AsksFor(req, ig, slices) && g < |gpus|
    ensures Ready(node, req, MigNames(req, ig), g) <==> GpuIsReady(gpus[g], req, slices)
  {
    AskedNames(req, ig, slices);
    NeedIsSizeOfAll(req, ig, slices);
    DescribedMax(node, gpus, g, Need(MigNames(req, ig)));
    hide Describes, AsksFor, Covers, Need, MigNames, SliceType, CpuOf, MemoryOf, NameOf, Free, Wanted, Quantity, Get, SizeOfAll, IsSliceSize;
    forall r | r in slices
      ensures Free(node, g, SliceType(r)) == Get(gpus[g].free, NameOf(slices[r]))
              && Wanted(req, MigNames(req, ig), SliceType(r)) == Quantity(req, slices, slices[r])
    {
      DescribedFree(node, gpus, g, SliceType(r));
      WantedIsQuantity(req, ig, slices, slices[r]);
    }
  }
}
